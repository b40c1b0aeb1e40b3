# Sneaker store: cart-to-order lifecycle in Dafny

A functional model of the storefront backend's cart store, checkout transaction
and catalog reader, plus the small pure helpers of the browser script.

- **Cart store** (`CartService`, `cart.dfy`). All carts are one immutable
  `map<string, seq<Line>>`. Each service call is one transition. It returns the
  new store and either the value the call returns or the error it throws (HTTP
  status and message). Add, update, remove and clear are modelled. So are
  get-or-create, create (the fresh id is a parameter) and totals. Every
  add and update resolve the product and variant and check the stock
  ceiling before they write. Remove and clear never consult the catalog. The store invariant `ValidStore` says: quantity ≥ 1,
  `lineTotal == price * quantity`, line id equals its key, and one line per key.
- **Checkout** (`CheckoutService`, `checkout.dfy`). An empty cart fails with
  400 "Cart is empty". Otherwise checkout appends one order and one order item
  per line to an append-only `Ledger`, empties the cart and returns the
  pre-clear totals. The order id and timestamp are parameters.
- **Catalog reader** (`ProductsService`, `products.dfy`). Lookup by product id
  and by variant id. `filterProducts` is modelled as its pipeline of stages,
  and is proved equal to one filter by a reference predicate `Matches`.
- **Browser helpers** (`Script`, `script.dfy`): `clamp`, the quantity stepper,
  the cart-badge bound, `escapeHtml`, the banner index, the countdown split and
  `cardMatchesBrand`. JavaScript's truncating `%` is written out as `JsRem`.
- `Wrappers`, `Seqs` and `Text` hold `Option`/`Result`, order-preserving
  `Filter` with its subsequence lemmas, the first-match search `FindIndex`
  behind every `find`, and ASCII lower-casing and substring search.
- `Scenarios` walks two concrete runs: add/update/checkout and the stock
  ceiling.

Request validation becomes preconditions:
- `qty` is an integer ≥ 1 for add and update.
- The checkout request has a non-empty cart id and name, a phone of ≥ 6
  characters, an address of ≥ 3 characters, and payment method `COD` or `bank`.

The other boundary guarantees are not needed by the model, because the services
accept any cart id and product id.

Points where the model follows the code's actual behaviour:
- A failed add, update or checkout still leaves the cart created, because the
  cart lookup runs before any check. Only the lines are guaranteed unchanged.
- `updateItem` refreshes only the price, not name or image. When neither the
  variant nor the product has a price, it keeps the line's old price; `addItem`
  falls back to 0 instead.
- Totals sum `price * quantity`, not `lineTotal`. The two agree under the line
  invariant (`TotalsOfValidLines`).
- Order ids are not guaranteed distinct (they are time-derived), so uniqueness
  is not claimed.
- Line keys can collide. Product `a:b` without a variant has the same key as
  product `a` with variant `b`, and the code would merge the two into one line.
  The store invariant still holds (one line per key), but such a line keeps the
  first product's id.

## Model

| member | source | states |
|---|---|---|
| Seqs.FindIndex | services/productsService.js:4 | the index of the first element satisfying the predicate: no earlier element satisfies it, and the length of the sequence means that none does |
| Seqs.Filter | services/cartService.js:113 | the result is no longer than the input, every kept element satisfies the predicate and comes from the input, and every input element satisfying it is kept |
| Seqs.FilterMultiset | services/cartService.js:113 | every element occurs in the result as often as in the input when the predicate keeps it, and not at all otherwise, so duplicates survive |
| Seqs.FilterIsSubsequence | services/cartService.js:113 | filtering keeps the surviving elements in their original order |
| Seqs.FilterFuse | services/productsService.js:22-38 | two successive filters equal one filter by the conjunction of their predicates |
| CartService.LineIndex | services/cartService.js:66 | the position of the first line carrying the id; no earlier line carries it, and the number of lines means none does |
| ProductsService.GetProductById | services/productsService.js:3-5 | absent exactly when no product has the id; otherwise a product with that id that no earlier product shares |
| ProductsService.GetVariantById | services/productsService.js:7-10 | absent when the product is absent or has no variants array; otherwise absent exactly when no variant has the id, else the first variant with it |
| ProductsService.FilterProducts | services/productsService.js:12-38 | the listing is the catalog run through the eight stages of `Stages` in source order (tag new/best/sale, category, brand, size, price_min, price_max), each active only when its parameter is given; its contract is carried by FilterProductsSpec and the FilterProducts* lemmas below |
| ProductsService.RunStagesIsFilter | services/productsService.js:22-38 | a sequence of conditional filters equals one filter by the conjunction of the active stages |
| ProductsService.FilterProductsSpec | services/productsService.js:12-38 | the result is the catalog filtered by `Matches`: a subsequence of the catalog, every element matches the query, and every matching catalog product is kept |
| ProductsService.FilterProductsTag | services/productsService.js:23-25 | tag new/best/sale (after lower-casing) keeps only products flagged is_new/is_best/is_sale |
| ProductsService.FilterProductsIgnoredTag | services/productsService.js:23-25 | a tag other than new/best/sale (after lower-casing) gives the same listing as no tag, whatever the other parameters |
| ProductsService.FilterProductsIgnoredCategory | services/productsService.js:26 | category "" or "all" (after lower-casing) gives the same listing as no category, whatever the other parameters |
| ProductsService.FilterProductsCategoryBrand | services/productsService.js:26-27 | a specific category or a non-empty brand keeps only exact matches with the lower-cased query value |
| ProductsService.FilterProductsPrice | services/productsService.js:31-36 | every result's price (missing = 0) is ≥ price_min and ≤ price_max when those are given |
| ProductsService.FilterProductsEmptyQuery | services/productsService.js:12-38 | the empty query returns the whole catalog unchanged |
| CartService.KeyShape | services/cartService.js:65 | the line key begins with the product id; it is longer exactly when a variant id is given, and then continues with `:` and the variant id |
| CartService.CreateCart | services/cartService.js:6-10 | registers an empty cart under the fresh id and leaves every existing cart as it was |
| CartService.GetOrCreateCart | services/cartService.js:12-21 | an existing cart is returned with the store unchanged; otherwise an empty cart is inserted under exactly that id, touching no other cart |
| CartService.GetOrCreateCartIdempotent | services/cartService.js:12-17 | a second get-or-create of the same id changes nothing |
| CartService.CreateThenGet | services/cartService.js:6-17 | a freshly created cart is found empty, and the lookup changes nothing |
| CartService.GetTotals | services/cartService.js:23-27 | the left-to-right pass yields subtotal = Σ price·quantity, total = subtotal, count = Σ quantity |
| CartService.TotalsOfValidLines | services/cartService.js:23-27 | under the line invariant the subtotal equals Σ lineTotal and the count is at least the number of lines |
| CartService.TotalsOf | services/cartService.js:23-27 | total equals subtotal (no tax, shipping or discount) and an empty cart totals 0/0/0; GetTotals computes it and TotalsOfValidLines relates it to the line totals |
| CartService.Held | services/cartService.js:66-67 | the quantity already held under a key: 0 when no line has the key; under the line invariant, the quantity of the line carrying the key (so at least 1) |
| CartService.ResolveItem | services/cartService.js:29-48 | succeeds exactly when the product exists and, if a variant id is given, so does that variant; unknown product gives 404 "Product not found"; a given but unknown variant gives 404 "Variant not found"; on success the product is the one getProductById returns (the first with the id), and a variant is returned exactly when a variant id was given, namely the one getVariantById returns (the first of that product with the id) |
| CartService.EnsureStock | services/cartService.js:50-57 | fails with 400 exactly when the quantity exceeds the variant's stock if it has one, else the product's stock; never fails when neither has stock |
| CartService.Ceiling | services/cartService.js:51 | the variant's stock when the variant has one, else the product's; its meaning is stated by EnsureStock |
| CartService.UnitPrice | services/cartService.js:71 | the variant's price when it has one, else the product's price when present, else the fallback (0 on add, the line's old price on update) |
| CartService.DisplayName | services/cartService.js:72 | the line name is the product name, followed by " - " and the variant's name exactly when the variant has a non-empty name |
| CartService.AddItem | services/cartService.js:59-95 | only the target cart changes; on error its lines are unchanged; resolution errors propagate; otherwise it fails with 400 exactly when held quantity + qty exceeds the ceiling |
| CartService.AddItemMerges | services/cartService.js:75-80 | for an existing key: same number of lines, that line's quantity becomes old + qty, its price/name/image are refreshed, its lineTotal is price·(old + qty), and every other line is unchanged |
| CartService.AddItemAppends | services/cartService.js:81-92 | for a new key: the old lines are kept in order and one line is appended, with the key as id, quantity qty and lineTotal price·qty |
| CartService.AddItemHeld | services/cartService.js:65-92 | after a successful add the key has a line, the quantity held under the key has grown by exactly qty, and so has the cart's count |
| CartService.AddItemPreservesValid | services/cartService.js:59-95 | adding preserves quantity ≥ 1, lineTotal = price·quantity, id = key and one line per key |
| CartService.AddTwiceMerges | services/cartService.js:65-80 | adding q1 then q2 under one key leaves a single line for it, holding the earlier quantity + q1 + q2, with lineTotal = price·quantity |
| CartService.UpdateItem | services/cartService.js:97-109 | a missing line yields no cart and leaves the lines unchanged; otherwise resolution errors propagate and stock is checked against the new absolute quantity, failing with 400 "Insufficient stock" exactly when qty exceeds the ceiling; on success only that line changes, its quantity becomes exactly qty, its price is refreshed (falling back to the old price), lineTotal is recomputed, and other carts are untouched |
| CartService.UpdateItemPreservesValid | services/cartService.js:97-109 | updating preserves the store invariant |
| CartService.RemoveItem | services/cartService.js:111-115 | the new lines are a subsequence of the old ones, none has the id, and every old line with another id is kept as often as it occurred; other carts are untouched |
| CartService.RemoveItemPreservesValid | services/cartService.js:111-115 | removing preserves the store invariant |
| CartService.RemoveItemIdempotent | services/cartService.js:111-115 | removing the same id a second time is a no-op |
| CartService.RemoveItemAbsent | services/cartService.js:113 | removing an id no line carries leaves the lines as they were |
| CartService.ClearCart | services/cartService.js:117-121 | the cart exists with zero lines and every other cart is untouched |
| CartService.ClearCartIdempotent | services/cartService.js:117-121 | clearing twice is the same as clearing once |
| CartService.CreateCartPreservesValid | services/cartService.js:6-10 | creating a cart keeps the store invariant |
| CartService.GetOrCreateCartPreservesValid | services/cartService.js:12-17 | get-or-create keeps the store invariant and returns valid lines |
| CartService.ClearCartPreservesValid | services/cartService.js:117-121 | clearing keeps the store invariant |
| CheckoutService.PaymentStatus | services/checkoutService.js:14 | "pending" exactly when the method is bank, "unpaid" otherwise |
| CheckoutService.Snapshot | services/checkoutService.js:29-41 | the item belongs to the order, its id is the order id, `:` and the line id, and a valid line gives quantity ≥ 1 and lineTotal = price·quantity; OrderItemsFor states the copied fields |
| CheckoutService.Checkout | services/checkoutService.js:4-45 | fails with 400 "Cart is empty" exactly when the cart has no lines, appending nothing; otherwise the amount and the returned totals are the pre-clear totals, status is "created", payment status is "pending" iff the method is bank and "unpaid" iff it is COD, and a missing note becomes ""; exactly one order is appended, the order items grow by one snapshot per line in cart order, earlier entries are unchanged, the cart ends with zero lines and other carts are untouched |
| CheckoutService.OrderItemsFor | services/checkoutService.js:29-41 | one item per line, in order; the item id is orderId:lineId, and it copies product id, variant id, name, price, quantity, lineTotal and image |
| CheckoutService.CheckoutItemsSumToAmount | services/checkoutService.js:12-41 | under the line invariant, the appended items' line totals sum to the order amount |
| CheckoutService.CheckoutItemIdsDistinct | services/checkoutService.js:29-33 | distinct line ids give distinct order item ids within one order |
| CheckoutService.CheckoutPreservesValid | services/checkoutService.js:43 | checkout preserves the store invariant |
| CheckoutService.CheckoutTwiceFails | services/checkoutService.js:5-43 | checking out the same cart again fails with "Cart is empty" and changes neither ledger nor store |
| Scenarios.AddUpdateCheckout | services/cartService.js:59-109 | product priced 100: add 2 gives lineTotal 200 and totals 200/200/2; update to 5 gives lineTotal 500; COD checkout gives an unpaid order of 500 and an empty cart |
| Scenarios.StockCeilingScenario | services/cartService.js:50-69 | with stock 5, adding 3 succeeds, and adding 3 more fails with "Insufficient stock" leaving the line at quantity 3 |
| Script.Clamp | script.js:8-10 | the result lies in [min, max] when min ≤ max, equals n when n is in range, is min below the range and max above it |
| Script.StepQuantity | script.js:514 | the +/- stepper always gives a quantity in [1, 99]: the stepped value when that is in range, 1 below it and 99 above it |
| Script.QuantityFromInput | script.js:529 | the input handler always gives a quantity in [1, 99]: an empty field gives 1, an in-range value is kept, a value below 1 gives 1 and one above 99 gives 99 |
| Script.CartBadgeCount | script.js:66 | the stored badge count lies in [0, 999]: n when n is in range, 0 below it and 999 above it |
| Script.JsRem | script.js:1107 | JavaScript's `%` on a positive divisor: in [0, b) and equal to the mathematical remainder for a non-negative dividend, in (−b, 0] for a negative one |
| Script.JsRemCongruent | script.js:1107 | the result differs from the dividend by a multiple of the divisor; with JsRem's ranges this fixes it as the remainder of truncating division (e.g. −1 % 5 = −1) |
| Script.SetBanner | script.js:1105-1110 | with no slides the index is unchanged; for index ≥ −n the new index lies in [0, n) and is the index modulo n |
| Script.BannerNavigationWraps | script.js:1112-1130 | from a valid index, next and previous stay in range, the last slide is followed by the first and the first is preceded by the last |
| Script.BannerIndexBelowRange | script.js:1107 | with more than one slide, the index −n−1 gives −1, outside the slide range, because JavaScript's % keeps the sign of the dividend |
| Script.CountdownClock | script.js:1162-1165 | for diff ≥ 0: hours·3600 + minutes·60 + seconds = ⌊diff/1000⌋, hours ≥ 0, minutes and seconds in [0, 60) |
| Script.TickCountdown | script.js:1151-1165 | a sale still running keeps its end and shows its remaining time; an ended sale is reset to six hours after the refresh and shows the countdown from the second clock read to that new end; with sane clock reads the clock shown is never negative and shows at most 6 hours after a reset |
| Script.EscapeHtml | script.js:47-54 | five replaceAll calls in source order, & first; its contract is carried by EscapeHtmlIsEscapeEach, EscapeHtmlIsSafe, EscapeHtmlIdentity and EscapeHtmlRoundTrip below |
| Script.EscapeHtmlIsEscapeEach | script.js:47-54 | the five sequential replacements, & first, equal escaping each character once |
| Script.EscapeHtmlIsSafe | script.js:47-54 | the output has no <, >, " or ', and every & in it begins one of &amp; &lt; &gt; &quot; &#039; |
| Script.EscapeHtmlIdentity | script.js:47-54 | a string without & < > " ' is returned unchanged |
| Script.EscapeHtmlRoundTrip | script.js:47-54 | decoding the five entities restores the input, so escaping is injective |
| Script.BrandTokens | script.js:621-628 | the table has an entry exactly for nike, adidas, puma, converse, asics and new-balance, and every entry contains its own brand |
| Script.TokensFor | script.js:635 | the tokens searched for a brand always include the brand itself |
| Script.CardMatchesBrand | script.js:630-637 | brand "all" always matches; a card with a data-brand matches iff its lower-cased brand equals the filter; otherwise it matches iff its lower-cased name includes one of the brand's tokens |
| Script.CardNamedAfterBrandMatches | script.js:621-637 | every brand is among its own tokens, so a card without data-brand whose name contains the brand matches it |

## Left out

- The HTTP layer, for example routes, controllers, the response envelope and the status mapping. Request validation is left out too, because it is library code. Its guarantees appear only as the preconditions above.
- `randomUUID`, `Date.now()` and `toISOString()` are not modelled. The fresh cart id, the order id and the timestamps are parameters.
- Concurrency and locking are not modelled. Every service function runs synchronously on one event loop, so each call is one atomic transition.
- The `db/products` and `db/orders` modules are not part of this model. The catalog is a sequence of product records and the ledger is two sequences.
- Number parsing and floating point are not modelled. Prices, stock, quantities and query bounds are integers. The `Number(...)` coercions and the NaN paths are left out. This covers a non-numeric price bound, a non-numeric size (which empties the listing), and a non-numeric quantity input (which passes through `clamp` as NaN).
- ProductsService.Query: `size` is the already-parsed number, not the query string.
- Text.Lower: lower-cases ASCII letters only; JavaScript's `toLowerCase` also folds non-ASCII letters.
- Script.CardMatchesBrand: brands that name inherited object properties are not modelled. For example, `brandTokens["toString"]` would make the JavaScript throw.
- The variant id of an add request is one optional field. The source takes either `variantId` or `variant_id`, and the model assumes that choice has already been made.
- Browser I/O and UI are not modelled, for example fetch calls, localStorage, DOM rendering, toasts, timers, currency formatting, the price-range split and the email regex. The navbar and footer scripts are left out as well.
