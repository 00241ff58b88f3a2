/** The cart tables of eCommerce/cart/models.py: a cart is keyed by a user or
    by a session key, and owns lines of (variation, quantity). Prices are not
    stored on lines: a subtotal reads the live price of the line's item. */
module CartModels {
  import opened Base
  import opened Catalog

  type UserId = nat
  type CartId = nat
  type LineId = nat

  /** A cart row. The views only ever create a user cart (user set, no session
      key) or a guest cart (session key set, no user). */
  datatype Cart = Cart(user: Option<UserId>, sessionKey: Option<string>)

  /** A cart line row; its quantity is a non-negative count. */
  datatype CartLine = CartLine(cart: CartId, variation: VariationId, qty: nat)

  /** `ShoppingCart.__str__`, with `emailOf` giving a user's email. An empty
      session key is falsy, so it reads as 'Unknown' too. */
  function CartLabel(c: Cart, emailOf: UserId -> string): (s: string)
    ensures c.user.Some? ==> s == "Cart for " + emailOf(c.user.value)
    ensures c.user.None? ==> |s| >= 22 && s[..21] == "Guest Cart (Session: " && s[|s| - 1] == ')'
    ensures c.user.None? && (c.sessionKey.None? || c.sessionKey == Some("")) ==>
              s == "Guest Cart (Session: Unknown)"
    ensures c.user.None? && c.sessionKey.Some? && c.sessionKey.value != "" ==>
              s[21..|s| - 1] == c.sessionKey.value
  {
    if c.user.Some? then "Cart for " + emailOf(c.user.value)
    else
      var key := if c.sessionKey.Some? && c.sessionKey.value != "" then c.sessionKey.value else "Unknown";
      "Guest Cart (Session: " + key + ")"
  }

  /** Every line in the table refers to a variation the catalog knows. */
  ghost predicate LinesIn(lines: map<LineId, CartLine>, cat: Catalog) {
    forall j :: j in lines ==> lines[j].variation in cat.variations
  }

  /** `p` taken `n` times: the product `p * n` (ScaleIsProduct), written as
      repeated addition. */
  function Scale(p: int, n: nat): int
  {
    if n == 0 then 0 else Scale(p, n - 1) + p
  }

  lemma {:induction false} ScaleIsProduct(p: int, n: nat)
    ensures Scale(p, n) == p * n
  {
    if n > 0 {
      ScaleIsProduct(p, n - 1);
    }
  }

  /** Taking `a + b` copies is taking `a` copies and then `b` more. */
  lemma {:induction false} ScaleAdds(p: int, a: nat, b: nat)
    ensures Scale(p, a + b) == Scale(p, a) + Scale(p, b)
  {
    if b > 0 {
      ScaleAdds(p, a, b - 1);
    }
  }

  lemma {:induction false} ScaleNonNegative(p: int, n: nat)
    requires p >= 0
    ensures Scale(p, n) >= 0
  {
    if n > 0 {
      ScaleNonNegative(p, n - 1);
    }
  }

  /** `ShoppingCartItem.subtotal`: the item's current price times the quantity. */
  function Subtotal(line: CartLine, cat: Catalog): int
  {
    Scale(cat.UnitPrice(line.variation), line.qty)
  }

  /** `ShoppingCart.total_price`: the sum of the line subtotals. */
  function TotalPrice(items: seq<CartLine>, cat: Catalog): int
  {
    if items == [] then 0 else TotalPrice(items[..|items| - 1], cat) + Subtotal(items[|items| - 1], cat)
  }

  /** With no negative prices the total is never negative, and it is 0 exactly
      when every line contributes nothing. */
  lemma {:induction false} TotalNonNegative(items: seq<CartLine>, cat: Catalog)
    requires forall x :: x in items ==> cat.UnitPrice(x.variation) >= 0
    ensures TotalPrice(items, cat) >= 0
    ensures TotalPrice(items, cat) == 0 <==> forall x :: x in items ==> Subtotal(x, cat) == 0
  {
    if items != [] {
      var init, last := items[..|items| - 1], items[|items| - 1];
      assert forall x :: x in init ==> x in items;
      TotalNonNegative(init, cat);
      assert Subtotal(last, cat) >= 0 by {
        ScaleNonNegative(cat.UnitPrice(last.variation), last.qty);
      }
      assert forall x :: x in items ==> x in init || x == last;
    }
  }

  /** The total is determined by the prices at the time it is read: two
      catalogs that price the lines alike give the same total. */
  lemma {:induction false} TotalFollowsLivePrices(items: seq<CartLine>, cat1: Catalog, cat2: Catalog)
    requires forall x :: x in items ==> cat1.UnitPrice(x.variation) == cat2.UnitPrice(x.variation)
    ensures TotalPrice(items, cat1) == TotalPrice(items, cat2)
  {
    if items != [] {
      TotalFollowsLivePrices(items[..|items| - 1], cat1, cat2);
    }
  }

  /** `cart.items.all()`: the lines of cart `c` among the ids below `n`, in id
      order, which the model takes as the order the query yields them. */
  function ItemsBelow(lines: map<LineId, CartLine>, c: CartId, n: nat): (r: seq<CartLine>)
    ensures forall x :: x in r ==> x.cart == c
    ensures |r| <= n
  {
    if n == 0 then []
    else ItemsBelow(lines, c, n - 1) + (if n - 1 in lines && lines[n - 1].cart == c then [lines[n - 1]] else [])
  }

  /** Every line of cart `c` among the ids below `n` is listed. */
  lemma {:induction false} ItemsBelowComplete(lines: map<LineId, CartLine>, c: CartId, n: nat, k: LineId)
    requires k < n && k in lines && lines[k].cart == c
    ensures lines[k] in ItemsBelow(lines, c, n)
  {
    if k < n - 1 {
      ItemsBelowComplete(lines, c, n - 1, k);
    }
  }

  /** Whether id `k` holds a line of cart `c`, as 0 or 1. */
  function Present(lines: map<LineId, CartLine>, c: CartId, k: LineId): nat {
    if k in lines && lines[k].cart == c then 1 else 0
  }

  /** What id `k` adds to the total of cart `c`. */
  function Contribution(lines: map<LineId, CartLine>, c: CartId, k: LineId, cat: Catalog): int
  {
    if k in lines && lines[k].cart == c then Subtotal(lines[k], cat) else 0
  }

  /** Changing the table at one id changes a cart's line count by exactly
      that id's difference in presence; every other id counts as before. */
  lemma {:induction false} CountChangeAtOneId(m1: map<LineId, CartLine>, m2: map<LineId, CartLine>, c: CartId, n: nat, k: LineId)
    requires k < n
    requires forall j :: j < n && j != k ==> (j in m1 <==> j in m2) && (j in m1 ==> m1[j] == m2[j])
    ensures |ItemsBelow(m2, c, n)| + Present(m1, c, k) == |ItemsBelow(m1, c, n)| + Present(m2, c, k)
  {
    if n - 1 == k {
      SameBelow(m1, m2, c, n - 1);
    } else {
      CountChangeAtOneId(m1, m2, c, n - 1, k);
    }
  }

  /** Changing the table at one id changes a cart's total by exactly that id's
      difference in subtotal; every other id contributes as before. */
  lemma {:induction false} TotalChangeAtOneId(m1: map<LineId, CartLine>, m2: map<LineId, CartLine>, c: CartId, n: nat, k: LineId, cat: Catalog)
    requires k < n
    requires forall j :: j < n && j != k ==> (j in m1 <==> j in m2) && (j in m1 ==> m1[j] == m2[j])
    ensures TotalPrice(ItemsBelow(m2, c, n), cat) + Contribution(m1, c, k, cat) ==
            TotalPrice(ItemsBelow(m1, c, n), cat) + Contribution(m2, c, k, cat)
  {
    TotalOfSnoc(m1, c, n, cat);
    TotalOfSnoc(m2, c, n, cat);
    if n - 1 == k {
      SameBelow(m1, m2, c, n - 1);
    } else {
      TotalChangeAtOneId(m1, m2, c, n - 1, k, cat);
      assert Contribution(m1, c, n - 1, cat) == Contribution(m2, c, n - 1, cat);
    }
  }

  /** Extending the id range by one adds that id's subtotal to the total. */
  lemma {:induction false} TotalOfSnoc(m: map<LineId, CartLine>, c: CartId, n: nat, cat: Catalog)
    requires n > 0
    ensures TotalPrice(ItemsBelow(m, c, n), cat) ==
            TotalPrice(ItemsBelow(m, c, n - 1), cat) + Contribution(m, c, n - 1, cat)
  {
    var a := ItemsBelow(m, c, n);
    if n - 1 in m && m[n - 1].cart == c {
      assert a[..|a| - 1] == ItemsBelow(m, c, n - 1);
    } else {
      assert a == ItemsBelow(m, c, n - 1);
    }
  }

  /** Two tables that agree on every id below `n` list the same lines. */
  lemma {:induction false} SameBelow(m1: map<LineId, CartLine>, m2: map<LineId, CartLine>, c: CartId, n: nat)
    requires forall j :: j < n ==> (j in m1 <==> j in m2) && (j in m1 ==> m1[j] == m2[j])
    ensures ItemsBelow(m1, c, n) == ItemsBelow(m2, c, n)
  {
    if n > 0 {
      SameBelow(m1, m2, c, n - 1);
    }
  }

  /** A change at id `k` that involves only cart `c` leaves every other
      cart's lines as they were. */
  lemma {:induction false} OtherCartUnaffected(m1: map<LineId, CartLine>, m2: map<LineId, CartLine>, c: CartId, d: CartId, n: nat, k: LineId)
    requires d != c
    requires forall j :: j < n && j != k ==> (j in m1 <==> j in m2) && (j in m1 ==> m1[j] == m2[j])
    requires k in m1 ==> m1[k].cart == c
    requires k in m2 ==> m2[k].cart == c
    ensures ItemsBelow(m1, d, n) == ItemsBelow(m2, d, n)
  {
    if n > 0 {
      OtherCartUnaffected(m1, m2, c, d, n - 1, k);
    }
  }

  /** A cart with no lines lists nothing. */
  lemma {:induction false} NoLinesNoItems(m: map<LineId, CartLine>, c: CartId, n: nat)
    requires forall j :: j in m ==> m[j].cart != c
    ensures ItemsBelow(m, c, n) == []
  {
    if n > 0 {
      NoLinesNoItems(m, c, n - 1);
    }
  }

  /** Replacing, inserting or removing the line at one id `k` of cart `c`
      changes that cart's count and total by what the id held before and
      after, and no other cart's lines. */
  lemma {:induction false} ChangeOneLine(m1: map<LineId, CartLine>, m2: map<LineId, CartLine>, c: CartId, n: nat, k: LineId, cat: Catalog)
    requires k < n
    requires forall j :: j < n && j != k ==> (j in m1 <==> j in m2) && (j in m1 ==> m1[j] == m2[j])
    requires k in m1 ==> m1[k].cart == c
    requires k in m2 ==> m2[k].cart == c
    ensures |ItemsBelow(m2, c, n)| + Present(m1, c, k) == |ItemsBelow(m1, c, n)| + Present(m2, c, k)
    ensures TotalPrice(ItemsBelow(m2, c, n), cat) + Contribution(m1, c, k, cat) ==
            TotalPrice(ItemsBelow(m1, c, n), cat) + Contribution(m2, c, k, cat)
    ensures forall d :: d != c ==> ItemsBelow(m1, d, n) == ItemsBelow(m2, d, n)
  {
    CountChangeAtOneId(m1, m2, c, n, k);
    TotalChangeAtOneId(m1, m2, c, n, k, cat);
    forall d | d != c
      ensures ItemsBelow(m1, d, n) == ItemsBelow(m2, d, n)
    {
      OtherCartUnaffected(m1, m2, c, d, n, k);
    }
  }

  /** Inserting a line of cart `c` under the next free id `n` appends it to
      cart `c` and to no other cart. */
  lemma {:induction false} InsertLine(m: map<LineId, CartLine>, n: nat, line: CartLine, cat: Catalog)
    requires forall j :: j in m ==> j < n
    ensures |ItemsBelow(m[n := line], line.cart, n + 1)| == |ItemsBelow(m, line.cart, n)| + 1
    ensures TotalPrice(ItemsBelow(m[n := line], line.cart, n + 1), cat) ==
            TotalPrice(ItemsBelow(m, line.cart, n), cat) + Subtotal(line, cat)
    ensures forall d :: d != line.cart ==> ItemsBelow(m[n := line], d, n + 1) == ItemsBelow(m, d, n)
  {
    var m2 := m[n := line];
    ChangeOneLine(m, m2, line.cart, n + 1, n, cat);
    forall d
      ensures ItemsBelow(m, d, n + 1) == ItemsBelow(m, d, n)
    {
    }
  }

  /** Raising a line's quantity by `q` raises its subtotal by `q` units. */
  lemma {:induction false} IncrementSubtotal(line: CartLine, q: nat, cat: Catalog)
    ensures Subtotal(line.(qty := line.qty + q), cat) == Subtotal(line, cat) + Scale(cat.UnitPrice(line.variation), q)
  {
    ScaleAdds(cat.UnitPrice(line.variation), line.qty, q);
  }

  /** Raising the quantity of line `k` of cart `c` by `q` keeps the cart's
      line count, raises its total by `q` units of the line's price, and
      leaves every other cart alone. */
  lemma {:induction false} IncrementLine(m: map<LineId, CartLine>, c: CartId, n: nat, k: LineId, q: nat, cat: Catalog, m2: map<LineId, CartLine>)
    requires k < n && k in m && m[k].cart == c
    requires m2 == m[k := m[k].(qty := m[k].qty + q)]
    ensures |ItemsBelow(m2, c, n)| == |ItemsBelow(m, c, n)|
    ensures TotalPrice(ItemsBelow(m2, c, n), cat) == TotalPrice(ItemsBelow(m, c, n), cat) + Scale(cat.UnitPrice(m[k].variation), q)
    ensures forall d :: d != c ==> ItemsBelow(m2, d, n) == ItemsBelow(m, d, n)
  {
    var p := cat.UnitPrice(m[k].variation);
    CountChangeAtOneId(m, m2, c, n, k);
    assert TotalPrice(ItemsBelow(m2, c, n), cat) == TotalPrice(ItemsBelow(m, c, n), cat) + Scale(p, q) by {
      IncrementSubtotal(m[k], q, cat);
      TotalChangeAtOneId(m, m2, c, n, k, cat);
    }
    forall d | d != c
      ensures ItemsBelow(m2, d, n) == ItemsBelow(m, d, n)
    {
      OtherCartUnaffected(m, m2, c, d, n, k);
    }
  }
}
