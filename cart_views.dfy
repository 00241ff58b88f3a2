/** The cart endpoints of eCommerce/cart/views.py over the two cart tables:
    resolving the caller's cart (`get_cart`), and listing, adding to, updating
    and removing from it. Each view answers with a `Reply`; an exception it
    raises goes on to the project exception handler. */
module CartViews {
  import opened Base
  import opened Catalog
  import opened CartModels
  import opened CartSerializers
  import opened Errors

  /** Who is asking: the authenticated user, if any, and the session key the
      request's session already has, if any. */
  datatype Request = Request(user: Option<UserId>, sessionKey: Option<string>)

  /** The key a cart is found or created under. */
  datatype Owner = UserOwner(user: UserId) | SessionOwner(key: string)

  /** The identity half of `get_cart`: an authenticated user owns by user; an
      anonymous request owns by its session key, and a session without a
      key (none, or empty) is given `newKey`, the key `session.create()`
      assigns. */
  function ResolveOwner(req: Request, newKey: string): (o: Owner)
    ensures req.user.Some? ==> o == UserOwner(req.user.value)
    ensures req.user.None? && req.sessionKey.Some? && req.sessionKey.value != "" ==>
              o == SessionOwner(req.sessionKey.value)
    ensures req.user.None? && (req.sessionKey.None? || req.sessionKey == Some("")) ==> o == SessionOwner(newKey)
  {
    if req.user.Some? then UserOwner(req.user.value)
    else if req.sessionKey.Some? && req.sessionKey.value != "" then SessionOwner(req.sessionKey.value)
    else SessionOwner(newKey)
  }

  /** The lookup of `get_or_create`: by user, or by session key with no user. */
  predicate Owns(cart: Cart, o: Owner) {
    match o
    case UserOwner(u) => cart.user == Some(u)
    case SessionOwner(k) => cart.sessionKey == Some(k) && cart.user.None?
  }

  /** The row `get_or_create` inserts when the lookup finds nothing. */
  function NewCart(o: Owner): (cart: Cart)
    ensures Owns(cart, o)
    ensures cart.user.Some? != cart.sessionKey.Some?
  {
    match o
    case UserOwner(u) => Cart(Some(u), None)
    case SessionOwner(k) => Cart(None, Some(k))
  }

  /** The lowest cart id below `n` owned by `o`. */
  function FindCart(carts: map<CartId, Cart>, o: Owner, n: nat): (r: Option<CartId>)
    ensures r.Some? ==> r.value < n && r.value in carts && Owns(carts[r.value], o)
    ensures r.None? ==> forall d :: d < n && d in carts ==> !Owns(carts[d], o)
  {
    if n == 0 then None
    else
      var r := FindCart(carts, o, n - 1);
      if r.Some? then r else if n - 1 in carts && Owns(carts[n - 1], o) then Some(n - 1) else None
  }

  /** The lowest line id below `n` holding variation `v` in cart `c`. */
  function FindLine(lines: map<LineId, CartLine>, c: CartId, v: VariationId, n: nat): (r: Option<LineId>)
    ensures r.Some? ==> r.value < n && r.value in lines && lines[r.value].cart == c && lines[r.value].variation == v
    ensures r.None? ==> forall k :: k < n && k in lines ==> lines[k].cart != c || lines[k].variation != v
  {
    if n == 0 then None
    else
      var r := FindLine(lines, c, v, n - 1);
      if r.Some? then r
      else if n - 1 in lines && lines[n - 1].cart == c && lines[n - 1].variation == v then Some(n - 1)
      else None
  }

  /** How the cart table changes when `get_cart` resolves owner `o` to cart
      `c`: an existing cart is reused untouched, otherwise one is inserted
      under the next id. */
  ghost predicate Resolved(oldCarts: map<CartId, Cart>, oldNext: nat, carts: map<CartId, Cart>, next: nat, c: CartId, o: Owner) {
    match FindCart(oldCarts, o, oldNext)
    case Some(e) => c == e && carts == oldCarts && next == oldNext
    case None => c == oldNext && carts == oldCarts[c := NewCart(o)] && next == oldNext + 1
  }

  /** Resolving the same owner again finds the cart the first resolution
      gave: repeated calls of `get_cart` return the same cart. */
  lemma {:induction false} ResolveIsStable(oldCarts: map<CartId, Cart>, oldNext: nat, carts: map<CartId, Cart>, next: nat, c: CartId, o: Owner)
    requires Resolved(oldCarts, oldNext, carts, next, c, o)
    ensures FindCart(carts, o, next) == Some(c)
    ensures Resolved(carts, next, carts, next, c, o)
  {
    if FindCart(oldCarts, o, oldNext).None? {
      assert FindCart(carts, o, oldNext).None?;
    }
  }

  const ItemNotFoundText := "Cart item not found."
  const IntegrityErrorText :=
    "UNIQUE constraint failed: cart_shoppingcartitem.cart_id, cart_shoppingcartitem.product_variation_id"

  function NotEnoughStockText(stock: nat): string {
    "Not enough stock. Only " + NatToString(stock) + " items available."
  }

  /** What a cart view returns: a rendered cart with its status, an empty 204,
      the view's own 404 body `{'error': 'Cart item not found.'}`, or an
      exception for the exception handler. */
  datatype Reply =
    | Rendered(status: int, body: CartSummary)
    | NoContent
    | ItemNotFound(error: string)
    | Raised(exc: Exc)

  /** The status the client sees for a reply. */
  function ReplyStatus(reply: Reply): int {
    match reply
    case Rendered(s, _) => s
    case NoContent => HttpNoContent
    case ItemNotFound(_) => HttpNotFound
    case Raised(e) => Handle(e, DrfDefault(e), "").status
  }

  /** The cart table's constraints: ids below the counter, every cart keyed
      by exactly one of user and session key, a user has at most one cart
      (one-to-one), and a session key is unique. */
  ghost predicate CartsValid(carts: map<CartId, Cart>, nextCartId: nat) {
    && (forall c :: c in carts ==> c < nextCartId)
    && (forall c :: c in carts ==> carts[c].user.Some? != carts[c].sessionKey.Some?)
    && (forall c, d :: c in carts && d in carts && c != d && carts[c].user.Some? ==> carts[c].user != carts[d].user)
    && (forall c, d :: c in carts && d in carts && c != d && carts[c].sessionKey.Some? ==>
          carts[c].sessionKey != carts[d].sessionKey)
  }

  /** The line table's constraints: ids below the counter, every line in an
      existing cart, and at most one line per (cart, variation)
      (`unique_together`). */
  ghost predicate LinesValid(carts: map<CartId, Cart>, lines: map<LineId, CartLine>, nextLineId: nat) {
    && (forall k :: k in lines ==> k < nextLineId && lines[k].cart in carts)
    && (forall k, j :: k in lines && j in lines && k != j && lines[k].cart == lines[j].cart ==>
          lines[k].variation != lines[j].variation)
  }

  /** A line whose (cart, variation) is not yet taken may go under the next id. */
  lemma {:induction false} NewLineKeepsValid(carts: map<CartId, Cart>, lines: map<LineId, CartLine>, n: nat, line: CartLine)
    requires LinesValid(carts, lines, n) && line.cart in carts
    requires FindLine(lines, line.cart, line.variation, n).None?
    ensures LinesValid(carts, lines[n := line], n + 1)
  {
  }

  /** A line may be rewritten in place within its cart when no other line of
      the cart holds its new variation. */
  lemma {:induction false} ReplaceLineKeepsValid(carts: map<CartId, Cart>, lines: map<LineId, CartLine>, n: nat, k: LineId, line: CartLine)
    requires LinesValid(carts, lines, n) && k in lines && lines[k].cart == line.cart
    requires FindLine(lines, line.cart, line.variation, n).None? || FindLine(lines, line.cart, line.variation, n) == Some(k)
    ensures LinesValid(carts, lines[k := line], n)
  {
  }

  /** Two tables that hold a line of (`c`, `v`) at the same ids below `n` find the same one. */
  lemma {:induction false} FindLineSame(m1: map<LineId, CartLine>, m2: map<LineId, CartLine>, c: CartId, v: VariationId, n: nat)
    requires forall j :: j < n ==>
               ((j in m1 && m1[j].cart == c && m1[j].variation == v) <==> (j in m2 && m2[j].cart == c && m2[j].variation == v))
    ensures FindLine(m1, c, v, n) == FindLine(m2, c, v, n)
  {
    if n > 0 {
      FindLineSame(m1, m2, c, v, n - 1);
    }
  }

  /** How many of variation `v` cart `c` holds: the quantity of its line of
      `v`, or 0 when it has none. */
  function QuantityOf(lines: map<LineId, CartLine>, c: CartId, v: VariationId, n: nat): nat {
    match FindLine(lines, c, v, n)
    case None => 0
    case Some(k) => lines[k].qty
  }

  /** The line table after a view has saved, with the id the next new line
      takes, and the view's answer. */
  datatype Saved = Saved(lines: map<LineId, CartLine>, next: nat, reply: Reply)

  /** Cart `c` as the views render it, with the request in the context. */
  function Render(status: int, lines: map<LineId, CartLine>, n: nat, c: CartId, cat: Catalog): Reply {
    Rendered(status, ReadCart(lines, c, n, cat, true))
  }

  /** `create`, once the cart `c` is resolved and (`v`, `q`) validated:
      `get_or_create` inserts a line of `q` under the next id, or finds the
      line already holding `v` and saves it with `q` more; only then is the
      line's quantity compared with the stock. */
  function Create(lines: map<LineId, CartLine>, n: nat, c: CartId, v: VariationId, q: nat, cat: Catalog): Saved
    requires v in cat.variations
  {
    var found := FindLine(lines, c, v, n);
    var created := found.None?;
    var k := if created then n else found.value;
    var qty := if created then q else lines[found.value].qty + q;
    var after := lines[k := CartLine(c, v, qty)];
    var next := if created then n + 1 else n;
    Saved(after, next,
          if qty > cat.Stock(v) then Raised(ValidationError(Messages([NotEnoughStockText(cat.Stock(v))])))
          else Render(if created then HttpCreated else HttpOk, after, next, c, cat))
  }

  /** `create` keeps the line table's constraints. */
  lemma {:induction false} CreateKeepsTables(carts: map<CartId, Cart>, lines: map<LineId, CartLine>, n: nat, c: CartId, v: VariationId, q: nat, cat: Catalog)
    requires LinesValid(carts, lines, n) && LinesIn(lines, cat) && c in carts && v in cat.variations
    ensures var s := Create(lines, n, c, v, q, cat);
            LinesValid(carts, s.lines, s.next) && LinesIn(s.lines, cat)
  {
    var found := FindLine(lines, c, v, n);
    if found.None? {
      NewLineKeepsValid(carts, lines, n, CartLine(c, v, q));
    } else {
      ReplaceLineKeepsValid(carts, lines, n, found.value, CartLine(c, v, lines[found.value].qty + q));
    }
  }

  /** `create` adds `q` to the quantity of `v` in cart `c`, from nothing when
      the cart had no line of it, whether or not the answer is an error. */
  lemma {:induction false} CreateAddsQuantity(lines: map<LineId, CartLine>, n: nat, c: CartId, v: VariationId, q: nat, cat: Catalog)
    requires forall j :: j in lines ==> j < n
    requires v in cat.variations
    ensures var s := Create(lines, n, c, v, q, cat);
            QuantityOf(s.lines, c, v, s.next) == QuantityOf(lines, c, v, n) + q
  {
    var s := Create(lines, n, c, v, q, cat);
    FindLineSame(lines, s.lines, c, v, n);
    if FindLine(lines, c, v, n).None? {
      assert FindLine(s.lines, c, v, n + 1) == Some(n);
    }
  }

  /** `create` saves a new line of `q` under the next id when cart `c` had no
      line of `v`, and otherwise the line holding `v` with `q` more; no other
      id changes. */
  lemma {:induction false} CreateSavesLine(lines: map<LineId, CartLine>, n: nat, c: CartId, v: VariationId, q: nat, cat: Catalog)
    requires v in cat.variations
    ensures var s := Create(lines, n, c, v, q, cat);
            && (FindLine(lines, c, v, n).None? ==> s.lines == lines[n := CartLine(c, v, q)] && s.next == n + 1)
            && (FindLine(lines, c, v, n).Some? ==>
                  var k := FindLine(lines, c, v, n).value;
                  s.lines == lines[k := lines[k].(qty := lines[k].qty + q)] && s.next == n)
  {
  }

  /** `create` adds a line to cart `c` exactly when it had none of `v`, raises
      the cart's total by `q` units at the live price, and touches no other
      cart. */
  lemma {:induction false} CreateMovesTotals(lines: map<LineId, CartLine>, n: nat, c: CartId, v: VariationId, q: nat, cat: Catalog)
    requires forall j :: j in lines ==> j < n
    requires v in cat.variations
    ensures var s := Create(lines, n, c, v, q, cat);
            && |ItemsBelow(s.lines, c, s.next)| == |ItemsBelow(lines, c, n)| + (if FindLine(lines, c, v, n).None? then 1 else 0)
            && TotalPrice(ItemsBelow(s.lines, c, s.next), cat) == TotalPrice(ItemsBelow(lines, c, n), cat) + Scale(cat.UnitPrice(v), q)
            && forall d :: d != c ==> ItemsBelow(s.lines, d, s.next) == ItemsBelow(lines, d, n)
  {
    var s := Create(lines, n, c, v, q, cat);
    var found := FindLine(lines, c, v, n);
    if found.None? {
      assert s.lines == lines[n := CartLine(c, v, q)] && s.next == n + 1;
      InsertLine(lines, n, CartLine(c, v, q), cat);
    } else {
      var k := found.value;
      assert s.lines == lines[k := lines[k].(qty := lines[k].qty + q)] && s.next == n;
      IncrementLine(lines, c, n, k, q, cat, s.lines);
    }
  }

  /** `create` refuses exactly when the saved quantity exceeds the stock, so
      a new line that passed validation is never refused. A refusal is a 400
      whose errors are the stock message as it stands, and the raised
      quantity stays saved. Otherwise the answer is the rendered cart after
      the change, 201 for a new line and 200 for an increment. */
  lemma {:induction false} CreateAnswers(lines: map<LineId, CartLine>, n: nat, c: CartId, v: VariationId, q: nat, cat: Catalog)
    requires forall j :: j in lines ==> j < n
    requires v in cat.variations
    ensures var s := Create(lines, n, c, v, q, cat);
            && (s.reply.Raised? <==> QuantityOf(s.lines, c, v, s.next) > cat.Stock(v))
            && (FindLine(lines, c, v, n).None? && q <= cat.Stock(v) ==> !s.reply.Raised?)
            && (s.reply.Raised? ==>
                  && ReplyStatus(s.reply) == HttpBadRequest
                  && Handle(s.reply.exc, DrfDefault(s.reply.exc), "POST").errors ==
                     Verbatim(Messages([NotEnoughStockText(cat.Stock(v))])))
            && (!s.reply.Raised? ==>
                  s.reply == Render(if FindLine(lines, c, v, n).None? then HttpCreated else HttpOk, s.lines, s.next, c, cat))
  {
    CreateAddsQuantity(lines, n, c, v, q, cat);
  }

  /** The scenario of the cart tests: 1 and then 2 of a variation priced
      25.00 with 10 in stock. The first add creates the line (201), the
      second raises it to 3 (200), the cart still has one line and its total
      is 75.00, and the line shows the product's name. */
  lemma AddTwiceAccumulates()
    ensures var cat := Catalog(map[0 := ProductItem("Test T-Shirt", "TestBrand", "Green", "TEST-SHIRT-GREEN", 2500, None, [])],
                       map[0 := Variation(0, 0, "M", 10)]);
            var first := Create(map[], 0, 0, 0, 1, cat);
            var second := Create(first.lines, first.next, 0, 0, 2, cat);
            && first.reply == Render(HttpCreated, first.lines, first.next, 0, cat)
            && second.reply.Rendered? && second.reply.status == HttpOk
            && |second.reply.body.items| == 1 && second.reply.body.items[0].qty == 3
            && second.reply.body.items[0].productName == "Test T-Shirt"
            && second.reply.body.totalPrice == 7500
  {
    var cat := Catalog(map[0 := ProductItem("Test T-Shirt", "TestBrand", "Green", "TEST-SHIRT-GREEN", 2500, None, [])],
                       map[0 := Variation(0, 0, "M", 10)]);
    var first := Create(map[], 0, 0, 0, 1, cat);
    assert first.lines == map[0 := CartLine(0, 0, 1)] && first.next == 1;
    var second := Create(first.lines, first.next, 0, 0, 2, cat);
    assert FindLine(first.lines, 0, 0, 1) == Some(0);
    var lines := map[0 := CartLine(0, 0, 3)];
    assert second.lines == lines && second.next == 1;
    assert ItemsBelow(lines, 0, 1) == [CartLine(0, 0, 3)];
    assert ViewsBelow(lines, 0, 1, cat, true) == [ReadLine(0, CartLine(0, 0, 3), cat, true)];
    assert Subtotal(CartLine(0, 0, 3), cat) == 7500 by {
      ScaleIsProduct(2500, 3);
    }
  }

  /** `partial_update`, once line `pk` is known to be in cart `c` and the data
      validated: the fields supplied replace the stored ones (the quantity is
      set, not added), unless another line of the cart already holds the new
      variation, when the unique constraint fails and nothing is saved. */
  function Patch(lines: map<LineId, CartLine>, n: nat, c: CartId, pk: LineId,
                 variation: Option<VariationId>, qty: Option<nat>, cat: Catalog): Saved
    requires pk in lines
  {
    var v := if variation.Some? then variation.value else lines[pk].variation;
    var q := if qty.Some? then qty.value else lines[pk].qty;
    var clash := FindLine(lines, c, v, n);
    if clash.Some? && clash.value != pk then Saved(lines, n, Raised(Unhandled(IntegrityErrorText)))
    else
      var after := lines[pk := CartLine(c, v, q)];
      Saved(after, n, Render(HttpOk, after, n, c, cat))
  }

  /** `partial_update` keeps the line table's constraints. */
  lemma {:induction false} PatchKeepsTables(carts: map<CartId, Cart>, lines: map<LineId, CartLine>, n: nat, c: CartId, pk: LineId,
                         variation: Option<VariationId>, qty: Option<nat>, cat: Catalog)
    requires LinesValid(carts, lines, n) && LinesIn(lines, cat) && pk in lines && lines[pk].cart == c
    requires variation.Some? ==> variation.value in cat.variations
    ensures var s := Patch(lines, n, c, pk, variation, qty, cat);
            LinesValid(carts, s.lines, s.next) && LinesIn(s.lines, cat) && s.next == n
  {
    var v := if variation.Some? then variation.value else lines[pk].variation;
    var q := if qty.Some? then qty.value else lines[pk].qty;
    var clash := FindLine(lines, c, v, n);
    if !(clash.Some? && clash.value != pk) {
      ReplaceLineKeepsValid(carts, lines, n, pk, CartLine(c, v, q));
    }
  }

  /** The update fails exactly when another line of the cart holds the new
      variation, and then answers 500 and changes nothing. Otherwise line `pk`
      holds the supplied fields, the cart keeps its number of lines, its total
      moves by the change in the line's subtotal, and no other cart changes. */
  lemma {:induction false} PatchSetsLine(carts: map<CartId, Cart>, lines: map<LineId, CartLine>, n: nat, c: CartId, pk: LineId,
                      variation: Option<VariationId>, qty: Option<nat>, cat: Catalog)
    requires LinesValid(carts, lines, n) && pk in lines && lines[pk].cart == c
    ensures var s := Patch(lines, n, c, pk, variation, qty, cat);
            var v := if variation.Some? then variation.value else lines[pk].variation;
            var q := if qty.Some? then qty.value else lines[pk].qty;
            && (s.reply.Raised? <==> exists j :: j in lines && j != pk && lines[j].cart == c && lines[j].variation == v)
            && (s.reply.Raised? ==> s.lines == lines && ReplyStatus(s.reply) == HttpServerError)
            && (!s.reply.Raised? ==>
                  && s.lines == lines[pk := CartLine(c, v, q)]
                  && s.reply == Render(HttpOk, s.lines, n, c, cat)
                  && |ItemsBelow(s.lines, c, n)| == |ItemsBelow(lines, c, n)|
                  && TotalPrice(ItemsBelow(s.lines, c, n), cat) + Subtotal(lines[pk], cat) ==
                     TotalPrice(ItemsBelow(lines, c, n), cat) + Subtotal(CartLine(c, v, q), cat))
            && forall d :: d != c ==> ItemsBelow(s.lines, d, n) == ItemsBelow(lines, d, n)
  {
    var s := Patch(lines, n, c, pk, variation, qty, cat);
    var v := if variation.Some? then variation.value else lines[pk].variation;
    var q := if qty.Some? then qty.value else lines[pk].qty;
    var clash := FindLine(lines, c, v, n);
    if clash.Some? && clash.value != pk {
      assert lines[clash.value].cart == c && lines[clash.value].variation == v;
    } else {
      ChangeOneLine(lines, s.lines, c, n, pk, cat);
    }
  }

  /** `destroy` removes one line of cart `c`: the cart has one line fewer, its
      total drops by that line's subtotal, the other carts are untouched and
      the table's constraints still hold. */
  lemma {:induction false} RemoveLine(carts: map<CartId, Cart>, lines: map<LineId, CartLine>, n: nat, c: CartId, pk: LineId, cat: Catalog)
    requires LinesValid(carts, lines, n) && pk in lines && lines[pk].cart == c
    ensures LinesValid(carts, lines - {pk}, n)
    ensures |ItemsBelow(lines - {pk}, c, n)| + 1 == |ItemsBelow(lines, c, n)|
    ensures TotalPrice(ItemsBelow(lines - {pk}, c, n), cat) + Subtotal(lines[pk], cat) == TotalPrice(ItemsBelow(lines, c, n), cat)
    ensures forall d :: d != c ==> ItemsBelow(lines - {pk}, d, n) == ItemsBelow(lines, d, n)
  {
    ChangeOneLine(lines, lines - {pk}, c, n, pk, cat);
  }

  class CartStore {
    var carts: map<CartId, Cart>
    var lines: map<LineId, CartLine>
    var nextCartId: nat
    var nextLineId: nat

    ghost predicate Valid()
      reads this
    {
      CartsValid(carts, nextCartId) && LinesValid(carts, lines, nextLineId)
    }

    constructor ()
      ensures Valid()
      ensures carts == map[] && lines == map[] && nextCartId == 0 && nextLineId == 0
    {
      carts, lines := map[], map[];
      nextCartId, nextLineId := 0, 0;
    }

    /** The lines of cart `c`, in id order. */
    function Items(c: CartId): seq<CartLine>
      reads this
    {
      ItemsBelow(lines, c, nextLineId)
    }

    /** `ShoppingCartSerializer(cart)` with the request in its context. */
    function Summary(c: CartId, cat: Catalog): CartSummary
      reads this
    {
      ReadCart(lines, c, nextLineId, cat, true)
    }

    /** At most one cart answers to an owner. */
    lemma OwnerHasOneCart(o: Owner, c: CartId, d: CartId)
      requires Valid()
      requires c in carts && d in carts && Owns(carts[c], o) && Owns(carts[d], o)
      ensures c == d
    {
    }

    /** `get_cart`: the caller's cart, created if it has none. */
    method GetCart(req: Request, newKey: string) returns (c: CartId)
      requires Valid()
      modifies this
      ensures Valid()
      ensures c in carts && Owns(carts[c], ResolveOwner(req, newKey))
      ensures Resolved(old(carts), old(nextCartId), carts, nextCartId, c, ResolveOwner(req, newKey))
      ensures forall d :: d in old(carts) && Owns(old(carts)[d], ResolveOwner(req, newKey)) ==> c == d && carts == old(carts)
      ensures lines == old(lines) && nextLineId == old(nextLineId)
    {
      var o := ResolveOwner(req, newKey);
      var found := FindCart(carts, o, nextCartId);
      if found.Some? {
        c := found.value;
      } else {
        c := nextCartId;
        carts := carts[c := NewCart(o)];
        nextCartId := nextCartId + 1;
      }
    }

    /** `list`: the caller's cart as rendered. */
    method List(req: Request, newKey: string, cat: Catalog) returns (c: CartId, body: CartSummary)
      requires Valid() && cat.Valid()
      modifies this
      ensures Valid()
      ensures c in carts && Owns(carts[c], ResolveOwner(req, newKey))
      ensures Resolved(old(carts), old(nextCartId), carts, nextCartId, c, ResolveOwner(req, newKey))
      ensures lines == old(lines) && nextLineId == old(nextLineId)
      ensures body == Summary(c, cat)
    {
      c := GetCart(req, newKey);
      body := Summary(c, cat);
    }
  
    /** `create`: add `data.qty` of a variation to the caller's cart. */
    method Add(req: Request, newKey: string, cat: Catalog, data: WriteData) returns (c: CartId, reply: Reply)
      requires Valid() && LinesIn(lines, cat) && cat.Valid()
      modifies this
      ensures Valid() && LinesIn(lines, cat)
      ensures c in carts && Owns(carts[c], ResolveOwner(req, newKey))
      ensures Resolved(old(carts), old(nextCartId), carts, nextCartId, c, ResolveOwner(req, newKey))
      ensures var r := IsValid(cat, data, false);
              && (r.Rejected? ==> reply == Raised(r.exc) && lines == old(lines) && nextLineId == old(nextLineId))
              && (r.Accepted? ==>
                    Saved(lines, nextLineId, reply) ==
                    Create(old(lines), old(nextLineId), c, r.variation.value, r.qty.value, cat))
    {
      c := GetCart(req, newKey);
      var r := IsValid(cat, data, false);
      if r.Rejected? {
        reply := Raised(r.exc);
        return;
      }
      CreateKeepsTables(carts, lines, nextLineId, c, r.variation.value, r.qty.value, cat);
      var s := Create(lines, nextLineId, c, r.variation.value, r.qty.value, cat);
      lines, nextLineId, reply := s.lines, s.next, s.reply;
    }

    /** `partial_update`: the line must be in the caller's cart; the same 404
        answers an id that does not exist and one in another cart. */
    method PartialUpdate(req: Request, newKey: string, cat: Catalog, pk: LineId, data: WriteData) returns (c: CartId, reply: Reply)
      requires Valid() && LinesIn(lines, cat) && cat.Valid()
      modifies this
      ensures Valid() && LinesIn(lines, cat)
      ensures c in carts && Owns(carts[c], ResolveOwner(req, newKey))
      ensures Resolved(old(carts), old(nextCartId), carts, nextCartId, c, ResolveOwner(req, newKey))
      ensures nextLineId == old(nextLineId)
      ensures !(pk in old(lines) && old(lines)[pk].cart == c) ==> reply == ItemNotFound(ItemNotFoundText) && lines == old(lines)
      ensures pk in old(lines) && old(lines)[pk].cart == c ==>
                var r := IsValid(cat, data, true);
                && (r.Rejected? ==> reply == Raised(r.exc) && lines == old(lines))
                && (r.Accepted? ==>
                      Saved(lines, nextLineId, reply) ==
                      Patch(old(lines), old(nextLineId), c, pk, r.variation, r.qty, cat))
    {
      c := GetCart(req, newKey);
      if !(pk in lines && lines[pk].cart == c) {
        reply := ItemNotFound(ItemNotFoundText);
        return;
      }
      var r := IsValid(cat, data, true);
      if r.Rejected? {
        reply := Raised(r.exc);
        return;
      }
      PatchKeepsTables(carts, lines, nextLineId, c, pk, r.variation, r.qty, cat);
      var s := Patch(lines, nextLineId, c, pk, r.variation, r.qty, cat);
      lines, reply := s.lines, s.reply;
    }

    /** `destroy`: delete the line if it is in the caller's cart. */
    method Destroy(req: Request, newKey: string, pk: LineId) returns (c: CartId, reply: Reply)
      requires Valid()
      modifies this
      ensures Valid()
      ensures c in carts && Owns(carts[c], ResolveOwner(req, newKey))
      ensures Resolved(old(carts), old(nextCartId), carts, nextCartId, c, ResolveOwner(req, newKey))
      ensures nextLineId == old(nextLineId)
      ensures !(pk in old(lines) && old(lines)[pk].cart == c) ==> reply == ItemNotFound(ItemNotFoundText) && lines == old(lines)
      ensures pk in old(lines) && old(lines)[pk].cart == c ==> reply == NoContent && lines == old(lines) - {pk}
    {
      c := GetCart(req, newKey);
      if !(pk in lines && lines[pk].cart == c) {
        reply := ItemNotFound(ItemNotFoundText);
        return;
      }
      assert LinesValid(carts, lines - {pk}, nextLineId);
      lines := lines - {pk};
      reply := NoContent;
    }

    /** Deleting a cart row deletes its lines with it (`on_delete=CASCADE`). */
    method DeleteCart(c: CartId)
      requires Valid() && c in carts
      modifies this
      ensures Valid()
      ensures carts == old(carts) - {c} && nextCartId == old(nextCartId) && nextLineId == old(nextLineId)
      ensures lines == map k | k in old(lines) && old(lines)[k].cart != c :: old(lines)[k]
      ensures Items(c) == []
    {
      carts := carts - {c};
      lines := map k | k in lines && lines[k].cart != c :: lines[k];
      NoLinesNoItems(lines, c, nextLineId);
    }
  }
}
