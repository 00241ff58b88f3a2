# eCommerce cart, catalog pricing and accounts in Dafny

This project models the core of a Django REST eCommerce back end.

- **Shopping cart.** A cart belongs to a user or to an anonymous session. It holds at most one line per product variation. The endpoints list the cart, add a variation (creating a line or raising an existing one), set a line's fields, and remove a line. Each line's subtotal and the cart's total are read at the catalog's live prices.
- **Catalog pricing.** The catalog rules behind the cart and the product list: the effective price of an item, the lowest price of a product, and the first default image.
- **Users.** Each user has at most one default address. An account starts inactive, is activated by its confirmation link, and only an active account obtains tokens. Logout answers 205 or 400.
- **Errors.** A project-wide handler turns every exception raised by a view into a response with an `errors` body.

Database tables are maps from primary key to row, each with an id counter. The catalog's own constraints (`Catalog.Catalog.Valid`: variations point at items, one variation per item and size, unique `sku_base`) are a precondition of the cart views that read it. A table's constraints are `Valid()` predicates on the classes that hold it: `CartViews.CartStore` and the two classes of `UserModels`. Views that change a table are methods. Each method is proved to leave its table equal to a pure function of the old state. The properties are lemmas about those functions:
- `Create`, `Patch` and the removal in the cart;
- `SaveRow` in the address book;
- `Confirm` for activation.

Prices are integer cents. The catalog is a read-only parameter of every cart operation that reads prices or stock, so prices are never snapshotted. Ordered reads list rows in primary-key order: for a cart's items and an item's images the models declare no ordering, and for a user's addresses only the default flag orders them, so this order is an assumption of the model.

Outside collaborators are parameters:
- the session key a new session receives;
- the messages of the email, username and password validators (`UserSerializers.FieldChecks`);
- the confirmation-token check;
- the decoding of the link's uid;
- the parsing and blacklisting of a refresh token.

Modules:
- `Base`: Option, status codes, integer rendering.
- `Catalog`: product tiers and the price and image rules.
- `ProductListing`: the list serializer's price and image.
- `CartModels`: cart rows, subtotal, total.
- `CartSerializers`: write validation and the read projection.
- `CartViews`: `get_cart` and the cart endpoints.
- `Errors`: the exception handler.
- `UserModels`: users, addresses and the single-default save.
- `UserSerializers`: registration, tokens, address create and update.
- `UserViews`: confirmation, logout, address list and address endpoints.

## Model

| member | source | states |
|---|---|---|
| Base.NatToStringRoundTrip | eCommerce/cart/serializers.py:47 | the decimal form of a stock count embedded in messages reads back as the same number |
| Catalog.Catalog.Valid | eCommerce/product/models.py:68-103 | the catalog's constraints: each variation's item exists, one variation per (item, size), unique `sku_base`; required by the cart views that read the catalog |
| Catalog.Catalog.UnitPrice | eCommerce/cart/models.py:53-54 | the live price of a variation read through its item; Subtotal and the total lemmas rely on it |
| Catalog.Catalog.LabelsOf | eCommerce/cart/serializers.py:9-12 | the product, brand, colour and size names of a variation; ViewsShowItems states that each line shows them |
| Catalog.Catalog.Stock | eCommerce/cart/serializers.py:46-47 | the stock of a variation; IsValid, StockBoundIsInclusive and CreateAnswers compare with it |
| Catalog.Price | eCommerce/product/models.py:75-78 | the effective price is either the original price or the sale price |
| Catalog.SalePriceWhenTruthy | eCommerce/product/models.py:78 | a non-zero sale price wins; a sale price of 0 or none falls back to the original price |
| Catalog.CategoryLabel | eCommerce/product/models.py:15-18 | the label is "parent > name" when there is a parent, and the bare name otherwise |
| Catalog.FirstDefaultImage | eCommerce/cart/serializers.py:25 | no image exactly when no image is default; otherwise the first default image in order |
| Catalog.Link | eCommerce/product/serializers.py:82-85 | the URL is absolute exactly when a request is in context, and has the stored path either way |
| Catalog.FirstDefaultOfConcat | eCommerce/product/serializers.py:79-86 | the first default of two image lists comes from the first list when it has one, else from the second |
| ProductListing.ListPrice | eCommerce/product/serializers.py:69-74 | no price exactly when the product has no items; otherwise at most every item price and equal to one of them |
| ProductListing.ListImage | eCommerce/product/serializers.py:76-86 | no image exactly when no item has a default image |
| ProductListing.ListImageIsFirstDefaultOverall | eCommerce/product/serializers.py:79-86 | the item-by-item search returns the first default image among all images, rendered as the context demands |
| CartModels.CartLabel | eCommerce/cart/models.py:20-23 | "Cart for <email>" for a user cart; a guest cart names its session key, or 'Unknown' when the key is missing or empty |
| CartModels.Subtotal | eCommerce/cart/models.py:47-54 | the live unit price of the line's variation taken `qty` times; ScaleIsProduct and IncrementSubtotal state it |
| CartModels.TotalPrice | eCommerce/cart/models.py:26-29 | the sum of the items' subtotals; TotalNonNegative, TotalFollowsLivePrices and the line-change lemmas state it |
| CartModels.ScaleIsProduct | eCommerce/cart/models.py:53-54 | a subtotal is the live price times the quantity |
| CartModels.TotalNonNegative | eCommerce/cart/models.py:26-29 | with non-negative prices the total is non-negative, and it is 0 exactly when every line contributes 0 (an empty cart totals 0) |
| CartModels.TotalFollowsLivePrices | eCommerce/cart/models.py:47-54 | the total depends only on the prices when it is read, not on prices at the time of adding |
| CartModels.ItemsBelow | eCommerce/cart/models.py:28 | a cart's items are lines of that cart only |
| CartModels.ItemsBelowComplete | eCommerce/cart/models.py:28 | every line of the cart is among its items |
| CartModels.ChangeOneLine | eCommerce/cart/models.py:26-29 | changing one line of a cart moves its count and total by exactly what that line held before and after; no other cart changes |
| CartModels.InsertLine | eCommerce/cart/models.py:26-29 | a new line under the next id adds one item and its subtotal to its cart, and nothing to other carts |
| CartModels.IncrementSubtotal | eCommerce/cart/models.py:47-54 | raising a line's quantity by q raises its subtotal by q units of the price |
| CartModels.IncrementLine | eCommerce/cart/models.py:26-29 | raising a line by q keeps the cart's line count, raises its total by q units, and leaves other carts alone |
| CartModels.NoLinesNoItems | eCommerce/cart/models.py:36 | a cart with no lines left (after the cascade) lists nothing |
| CartSerializers.FieldErrors | eCommerce/cart/serializers.py:38-40 | the variation is rejected exactly when it is missing on a full write or unknown; the quantity exactly when it is negative |
| CartSerializers.Validate | eCommerce/cart/serializers.py:42-48 | passes exactly when no variation is given or the quantity is at most the stock; too many gives the stock figure; a variation without a quantity fails the comparison on None |
| CartSerializers.IsValid | eCommerce/cart/serializers.py:42-48 | accepted exactly when the field checks pass and the stock check passes; accepted data is the input unchanged |
| CartSerializers.StockBoundIsInclusive | eCommerce/cart/serializers.py:46-47 | a quantity equal to the stock passes; one more is refused with "Only N items in stock." as a non-field error |
| CartSerializers.QuantityOnlyUpdateSkipsStock | eCommerce/cart/serializers.py:44-46 | a partial update without a variation is never compared with any stock |
| CartSerializers.LineImage | eCommerce/cart/serializers.py:22-32 | a line shows an image exactly when its item has a default image, and then the first default image, absolute when a request is in context |
| CartSerializers.ReadLine | eCommerce/cart/serializers.py:4-32 | one rendered line; ViewsShowItems and LineImage state its fields |
| CartSerializers.ReadCart | eCommerce/cart/serializers.py:50-56 | the cart's id, its rendered lines and its total; ViewsBelow, ViewsShowItems and TotalIsSumOfShownSubtotals state it |
| CartSerializers.ViewsBelow | eCommerce/cart/serializers.py:50-51 | the projection has one entry per line of the cart, in increasing id order |
| CartSerializers.ViewsShowItems | eCommerce/cart/serializers.py:4-20 | the k-th entry shows the k-th line: its id, variation, quantity, product, brand, colour and size names, live price, image and subtotal |
| CartSerializers.TotalIsSumOfShownSubtotals | eCommerce/cart/serializers.py:50-52 | the total shown equals the sum of the subtotals shown |
| CartViews.CartsValid | eCommerce/cart/models.py:9-16 | the cart table's constraints: one of user and session key, one cart per user, unique session key; CartStore.OwnerHasOneCart relies on it |
| CartViews.LinesValid | eCommerce/cart/models.py:36-42 | the line table's constraints: lines in existing carts, one line per (cart, variation); kept by CreateKeepsTables, PatchKeepsTables and RemoveLine |
| CartViews.ResolveOwner | eCommerce/cart/views.py:11-18 | an authenticated user owns by user; an anonymous request owns by its session key, and by the new key when it has none |
| CartViews.NewCart | eCommerce/cart/views.py:12-18 | a created cart is owned by the owner it was created for, with exactly one of user and session key |
| CartViews.FindCart | eCommerce/cart/views.py:12-18 | the lookup finds a cart of the owner, or there is none |
| CartViews.FindLine | eCommerce/cart/views.py:51-55 | the lookup finds the line of the cart holding the variation, or there is none |
| CartViews.ResolveIsStable | eCommerce/cart/views.py:7-19 | resolving the same owner again returns the same cart and creates nothing |
| CartViews.NewLineKeepsValid | eCommerce/cart/models.py:42 | a line for a (cart, variation) not yet present keeps one line per (cart, variation) |
| CartViews.ReplaceLineKeepsValid | eCommerce/cart/models.py:42 | rewriting a line keeps the table's constraints unless another line of the cart holds its new variation |
| CartViews.Create | eCommerce/cart/views.py:51-69 | the table, next id and answer of `create`; CreateKeepsTables, CreateAddsQuantity, CreateSavesLine, CreateMovesTotals and CreateAnswers state them |
| CartViews.CreateKeepsTables | eCommerce/cart/views.py:51-59 | add keeps every line in an existing cart and one line per (cart, variation) |
| CartViews.CreateAddsQuantity | eCommerce/cart/views.py:51-59 | add raises the cart's quantity of the variation by the requested amount, from 0 when there was no line, even when the answer is an error |
| CartViews.CreateSavesLine | eCommerce/cart/views.py:51-59 | add writes a new line of the requested quantity under the next id when the cart had none of the variation, and otherwise raises that line by the quantity; no other row changes |
| CartViews.CreateMovesTotals | eCommerce/cart/views.py:51-59 | add creates a line exactly when none held the variation, raises the total by q units at the live price, and leaves other carts alone |
| CartViews.CreateAnswers | eCommerce/cart/views.py:61-69 | add refuses exactly when the saved quantity exceeds the stock, with a 400 carrying the stock message; a validated new line is never refused; otherwise 201 for a new line and 200 for an increment |
| CartViews.AddTwiceAccumulates | eCommerce/cart/views.py:39-69 | adding 1 and then 2 of a 25.00 variation gives 201, then 200 with one line of quantity 3 and a total of 75.00 |
| CartViews.Patch | eCommerce/cart/views.py:81-86 | the table and answer of `partial_update`; PatchKeepsTables and PatchSetsLine state them |
| CartViews.PatchKeepsTables | eCommerce/cart/views.py:81-83 | an update keeps the table's constraints |
| CartViews.PatchSetsLine | eCommerce/cart/views.py:81-86 | an update fails with a 500 and changes nothing exactly when another line of the cart holds the new variation; otherwise it sets the given fields (the quantity is not added), keeps the line count, moves the total by the change in subtotal, and leaves other carts alone |
| CartViews.RemoveLine | eCommerce/cart/views.py:98-99 | removing a line drops one item and its subtotal from its cart, keeps the constraints, and leaves other carts alone |
| CartViews.CartStore.OwnerHasOneCart | eCommerce/cart/models.py:9-16 | at most one cart answers to an owner (one-to-one user, unique session key) |
| CartViews.CartStore.GetCart | eCommerce/cart/views.py:7-19 | the caller's existing cart is returned unchanged, else one cart is created for it; lines are untouched |
| CartViews.CartStore.List | eCommerce/cart/views.py:31-37 | list answers the caller's cart as rendered and changes no line |
| CartViews.CartStore.Add | eCommerce/cart/views.py:39-69 | a rejected body raises its validation error and changes no line; an accepted one saves what the specification of add gives |
| CartViews.CartStore.PartialUpdate | eCommerce/cart/views.py:71-86 | an id missing or in another cart gives the same 404 and no change; otherwise rejected data changes nothing and accepted data saves what the update specification gives |
| CartViews.CartStore.Destroy | eCommerce/cart/views.py:88-99 | an id missing or in another cart gives the same 404 and no change; otherwise exactly that line is deleted and the answer is 204 |
| CartViews.CartStore.DeleteCart | eCommerce/cart/models.py:36 | deleting a cart deletes exactly its lines |
| Errors.DrfDefault | eCommerce/eCommerce/exception_handler.py:29 | DRF's default handler answers exactly the exceptions of its own classes |
| Errors.Handle | eCommerce/eCommerce/exception_handler.py:32-77 | the body is the bare detail exactly for a validation error; the status is one the branches allow |
| Errors.ValidationErrorIsBadRequest | eCommerce/eCommerce/exception_handler.py:38-41 | a validation error gives 400 with its detail as it stands, whatever else it is |
| Errors.AuthFailureKeepsStatus | eCommerce/eCommerce/exception_handler.py:43-46 | authentication and permission failures keep their own status, with the detail under 'detail' |
| Errors.NotFoundIsUniform | eCommerce/eCommerce/exception_handler.py:48-52 | every not-found exception gives the same 404 body |
| Errors.MethodNotAllowedNamesMethod | eCommerce/eCommerce/exception_handler.py:54-58 | 405, with a message naming the request method |
| Errors.OtherApiErrorKeepsDrfStatus | eCommerce/eCommerce/exception_handler.py:62-66 | another DRF exception keeps DRF's status, with its detail or "An error occurred." |
| Errors.ServerErrorHidesException | eCommerce/eCommerce/exception_handler.py:70-77 | anything else is a 500 whose body does not depend on the exception |
| UserModels.FindByEmail | eCommerce/users/models.py:15 | the lookup finds a user with the email, or there is none |
| UserModels.FindByUsername | eCommerce/users/serializers.py:29 | the lookup finds a user with the username, or there is none; RegistrationFieldErrors relies on it for the username check |
| UserModels.UsersValid | eCommerce/users/models.py:15 | the user table's constraints: unique email and username; kept by Insert, Activate and ConfirmKeepsUsersValid |
| UserModels.EmailIdentifiesUser | eCommerce/users/models.py:15 | with unique emails the lookup finds the one user holding the email |
| UserModels.UserDirectory.Insert | eCommerce/users/serializers.py:37-46 | a new user row goes under the next id, with email and username still unique |
| UserModels.UserDirectory.Activate | eCommerce/users/views.py:73-74 | activation sets the flag of that user only |
| UserModels.AtMostOneDefault | eCommerce/users/models.py:64-68 | each user has at most one default address; SaveKeepsOneDefault proves every save keeps it |
| UserModels.ClearDefaults | eCommerce/users/models.py:67 | every default row of the user loses its flag; SaveTouchesOnlyFlagsOfOwner states it |
| UserModels.SaveRow | eCommerce/users/models.py:64-68 | the single-default save; SaveLeavesOneDefault, SaveTouchesOnlyFlagsOfOwner and SaveKeepsOneDefault state it |
| UserModels.SaveLeavesOneDefault | eCommerce/users/models.py:64-68 | after saving a default address it is its user's only default |
| UserModels.SaveTouchesOnlyFlagsOfOwner | eCommerce/users/models.py:64-68 | a save changes other rows only by clearing default flags of its own user, and only when it is default |
| UserModels.SaveKeepsOneDefault | eCommerce/users/models.py:64-68 | every save keeps each user at one default address at most |
| UserModels.AddressBook.Save | eCommerce/users/models.py:64-68 | the table after a save is the single-default save of the row, and the invariant holds |
| UserModels.AddressBook.InsertAddress | eCommerce/users/serializers.py:79 | a new address row under the next id |
| UserModels.AddressBook.UpdateAddress | eCommerce/users/serializers.py:88 | the named columns of the address take the new values |
| UserSerializers.RegistrationFieldErrors | eCommerce/users/serializers.py:24-29 | the email and the username are rejected exactly when taken or when a format or length validator of their column objects, with the "already exists" message exactly in the taken case; the password exactly when a password validator objects |
| UserSerializers.ValidateRegistration | eCommerce/users/serializers.py:31-34 | accepted data is returned unchanged |
| UserSerializers.RegistrationOutcome | eCommerce/users/serializers.py:31-34 | registration is accepted exactly when email and username are free and pass their column validators, the password passes and the two passwords match; a mismatch alone gives a 400 naming the password field |
| UserSerializers.NewUser | eCommerce/users/serializers.py:36-46 | the row registration creates; NewUserIsInactive states it |
| UserSerializers.NewUserIsInactive | eCommerce/users/serializers.py:36-46 | a registered user is inactive and holds the submitted fields |
| UserSerializers.Register | eCommerce/users/serializers.py:36-46 | a refusal changes no user; an acceptance adds exactly the new inactive user under the next id |
| UserSerializers.NoActiveAccount | eCommerce/users/serializers.py:12 | the refusal of the inherited `validate` when authentication finds no active user: an authentication failure with status 401 and the plain message |
| UserSerializers.Authenticate | eCommerce/users/serializers.py:12 | authentication yields only a user holding the email |
| UserSerializers.IssueTokens | eCommerce/users/serializers.py:11-18 | tokens name an existing user |
| UserSerializers.TokensOnlyForActiveUsers | eCommerce/users/serializers.py:11-18 | tokens are issued exactly to the active user holding the email and password; every refusal is the same 401 |
| UserSerializers.UpdatedLink | eCommerce/users/serializers.py:91 | the default flag is the one supplied, or the row's own when none is |
| UserSerializers.UpdatedAddresses | eCommerce/users/serializers.py:85-88 | the address table after an update; AddressChangesOnlyWithData states it |
| UserSerializers.AddressChangesOnlyWithData | eCommerce/users/serializers.py:85-88 | the address changes only when non-empty address data is supplied, and then only in the columns given |
| UserSerializers.CreateUserAddress | eCommerce/users/serializers.py:77-82 | a new address, and a link to it saved by the single-default rule |
| UserSerializers.UpdateUserAddress | eCommerce/users/serializers.py:84-93 | the address is updated as supplied, and the link is saved with its new flag by the single-default rule |
| UserViews.Confirm | eCommerce/users/views.py:65-77 | the user table and answer of confirmation; ConfirmActivatesOnlyLinkedUser and ConfirmKeepsUsersValid state them |
| UserViews.ConfirmActivatesOnlyLinkedUser | eCommerce/users/views.py:65-77 | 200 exactly for an existing user with a valid token, which is then the only change; otherwise 400 and no change |
| UserViews.ConfirmKeepsUsersValid | eCommerce/users/views.py:73-74 | activation keeps emails and usernames unique |
| UserViews.ConfirmEmail | eCommerce/users/views.py:65-77 | the view leaves the table and answer the confirmation specification gives |
| UserViews.ConfirmationEnablesLogin | eCommerce/users/views.py:65-77 | a newly registered user is refused tokens; after confirmation the same credentials obtain them |
| UserViews.LogoutStatus | eCommerce/users/views.py:86-93 | 205 exactly when a refresh token is given and blacklisted; 400 otherwise |
| UserViews.LinksBelow | eCommerce/users/views.py:122 | the selected rows are the user's rows with the given flag, each once, in id order |
| UserViews.AddressList | eCommerce/users/views.py:122 | the caller's rows, defaults first; AddressListIsCallersRows states it |
| UserViews.AddressListIsCallersRows | eCommerce/users/views.py:113-122 | the list holds each of the caller's rows exactly once and no one else's, defaults first, and at most the first row is default |
| UserViews.CreateAddress | eCommerce/users/views.py:124-125 | the new row belongs to the caller, is saved by the single-default rule, and the answer is 201 |
| UserViews.UpdateAddress | eCommerce/users/views.py:113-122 | another user's row is a 404 like a missing one and nothing changes; the caller's row is updated as the serializer specifies |

## Left out

- Guest-to-user cart merge at login: no code performs it. The token serializer only checks the active flag.
- Concurrency and transactions: operations are sequential. In particular no rollback of the saved increment is assumed when add refuses on stock.
- The unauthenticated case of the cart views: the views allow any caller, so an anonymous caller gets a session cart. eCommerce/cart/tests.py:33-38 expects a 401 that this code does not give.
- Authentication and permission checks on the users endpoints (`IsAuthenticated`), and the user detail endpoint.
- Catalog filtering, search, ordering, pagination and the detail serializers: their meaning lives in the filter and ORM libraries.
- Seeding and stock-report commands, admin registration, URL routing, the health check, logging and email sending.
- Password hashing: the stored credential is compared as given. Token generation and checking, JWT issue and blacklisting, uid decoding and the password validators are parameters.
- Decimal arithmetic: prices are integer cents, and the two-decimal rendering of prices is not modelled.
- Display-only string forms (`__str__` of cart lines, items, images, variations, addresses and users).
- Field-level checks of the serializers other than those stated: the upper bound of the quantity column, non-integer input, the address columns' lengths and required flags, and a missing `first_name` or `last_name` at registration: those fields are optional, so `create` reads a missing key and the answer is a 500.
- Timestamps (`created_at`, `updated_at`, `date_joined`).
- UserSerializers.RegistrationOutcome, UserSerializers.Authenticate: the serializer fields strip surrounding whitespace from the email, username, password and password confirmation before any check; the model takes the values after stripping and does not model the stripping itself.
- UserSerializers.IssueTokens: the added active-user check at users/serializers.py:13-17 is not reachable with the default backend, which already refuses inactive users; its dictionary-shaped detail is not modelled, and the refusal is the inherited one.
- UserSerializers.RegistrationFieldErrors: the email and username column validators (email format and length, the username's allowed characters and length) are a parameter, `FieldChecks`, giving their messages; the order of the messages within one field is not modelled, only which messages are present.
- CartViews.CartStore.PartialUpdate, CartViews.CartStore.Destroy: the item id of the URL is modelled as a natural number. A non-numeric id makes the lookup raise `ValueError`, which the views do not catch, so the answer is a 500 rather than the 404; that path is not modelled.
- The cart's `user` field in the rendered cart: `CartSerializers.CartSummary` carries the cart's id, lines and total, but the views that render it do not receive the cart row.
- Where an item has no image file behind a default image, reading its URL fails; image files are not modelled.
- `build_absolute_uri`: an absolute link keeps the stored path and is only marked absolute.
- Errors.DrfDefault: DRF's default handler is stated only for the exceptions this model raises; its full behaviour is not part of this model.
- UserViews.AddressList: rows with the same default flag come in id order; the query leaves their order to the database.
- UserSerializers.Register: `SiteUser.objects.create` first saves the user active and then deactivates it. Only the final, inactive state is modelled. The confirmation email with its link is not modelled.
- Deleting or fully replacing an address through the address endpoints is not modelled.
