/** The cart store of the storefront backend: carts keyed by id, each an ordered
    sequence of lines, with get-or-create, add (merge), update (replace), remove,
    clear and totals. Each mutation is one atomic transition of the store. Add
    and update resolve the product (and variant) in the catalog and check the
    stock ceiling before anything is written; remove and clear never consult the
    catalog. */
module CartService {
  import opened Wrappers
  import opened Seqs
  import opened ProductsService

  /** One cart line. `price`, `name` and `imageUrl` are snapshots taken at the
      line's most recent add or update. */
  datatype Line = Line(
    id: string,
    productId: string,
    variantId: Option<string>,
    name: string,
    price: int,
    quantity: int,
    lineTotal: int,
    imageUrl: string)

  /** All carts, by cart id. */
  type Store = map<string, seq<Line>>

  /** A thrown service error: an HTTP status and a message. */
  datatype Error = Error(status: int, message: string)

  const ProductNotFound := Error(404, "Product not found")
  const VariantNotFound := Error(404, "Variant not found")
  const InsufficientStock := Error(400, "Insufficient stock")

  /** The store after an operation, and what the operation returned or threw.
      The store is reported even on failure: the cart lookup that precedes every
      check may already have created the cart. */
  datatype Outcome<T> = Outcome(store: Store, result: Result<T, Error>)

  /** The lines of cart `id`; a cart not yet created has none. */
  function LinesOf(store: Store, id: string): seq<Line> {
    if id in store then store[id] else []
  }

  /** A variant id counts only when it is present and non-empty (JavaScript truthiness). */
  predicate Given(variantId: Option<string>) {
    variantId.Some? && variantId.value != ""
  }

  /** The line key: `productId:variantId` when a variant is given, else `productId`. */
  function Key(productId: string, variantId: Option<string>): string {
    if Given(variantId) then productId + ":" + variantId.value else productId
  }

  /** A key begins with the product id; it is longer exactly when a variant is
      given, and then continues with `:` and the variant id. */
  lemma KeyShape(productId: string, variantId: Option<string>)
    ensures var k := Key(productId, variantId);
      && |productId| <= |k| && k[..|productId|] == productId
      && (Given(variantId) <==> |k| > |productId|)
      && (Given(variantId) ==> k[|productId|] == ':' && k[|productId| + 1..] == variantId.value)
  {
  }

  // ---------------------------------------------------------------------------
  // Invariants

  predicate ValidLine(l: Line) {
    && l.quantity >= 1
    && l.lineTotal == l.price * l.quantity
    && (l.variantId.Some? ==> l.variantId.value != "")
    && l.id == Key(l.productId, l.variantId)
  }

  /** Every line is well formed and no two lines share a key. */
  predicate ValidLines(lines: seq<Line>) {
    && (forall i :: 0 <= i < |lines| ==> ValidLine(lines[i]))
    && (forall i, j :: 0 <= i < j < |lines| ==> lines[i].id != lines[j].id)
  }

  predicate ValidStore(store: Store) {
    forall id :: id in store ==> ValidLines(store[id])
  }

  // ---------------------------------------------------------------------------
  // Carts

  /** `createCart` with the freshly generated id passed in: registers an empty
      cart under it and touches nothing else. */
  function CreateCart(store: Store, freshId: string): (s: Store)
    requires freshId !in store
    ensures s.Keys == store.Keys + {freshId}
    ensures s[freshId] == []
    ensures forall id :: id in store ==> s[id] == store[id]
  {
    store[freshId := []]
  }

  /** `getOrCreateCart` (and its alias `getCart`): an existing cart is returned as
      is; otherwise an empty cart is inserted under exactly that id. */
  function GetOrCreateCart(store: Store, id: string): (r: (Store, seq<Line>))
    ensures id in store ==> r.0 == store && r.1 == store[id]
    ensures id !in store ==> r.1 == [] && r.0.Keys == store.Keys + {id}
    ensures id in r.0 && r.0[id] == r.1
    ensures forall other :: other in store ==> other in r.0 && r.0[other] == store[other]
  {
    if id in store then (store, store[id]) else (store[id := []], [])
  }

  /** Position of the first line with id `id`, or `|lines|` when there is none. */
  function LineIndex(lines: seq<Line>, id: string): (k: nat)
    ensures k <= |lines|
    ensures forall j :: 0 <= j < k ==> lines[j].id != id
    ensures k < |lines| ==> lines[k].id == id
  {
    FindIndex(lines, (l: Line) => l.id == id)
  }

  // ---------------------------------------------------------------------------
  // Totals

  function Subtotal(lines: seq<Line>): int {
    if lines == [] then 0 else lines[0].price * lines[0].quantity + Subtotal(lines[1..])
  }

  function Count(lines: seq<Line>): int {
    if lines == [] then 0 else lines[0].quantity + Count(lines[1..])
  }

  function SumLineTotals(lines: seq<Line>): int {
    if lines == [] then 0 else lines[0].lineTotal + SumLineTotals(lines[1..])
  }

  datatype Totals = Totals(subtotal: int, total: int, count: int)

  /** The totals of a cart: there is no tax, shipping or discount, so `total` is
      the subtotal. */
  function TotalsOf(lines: seq<Line>): (t: Totals)
    ensures t.total == t.subtotal
    ensures lines == [] ==> t == Totals(0, 0, 0)
  {
    Totals(Subtotal(lines), Subtotal(lines), Count(lines))
  }

  /** `getTotals`, as the source computes it: one left-to-right pass over the lines. */
  method GetTotals(lines: seq<Line>) returns (t: Totals)
    ensures t.subtotal == Subtotal(lines)
    ensures t.total == t.subtotal
    ensures t.count == Count(lines)
  {
    var subtotal := 0;
    var count := 0;
    var i := 0;
    while i < |lines|
      invariant 0 <= i <= |lines|
      invariant subtotal + Subtotal(lines[i..]) == Subtotal(lines)
      invariant count + Count(lines[i..]) == Count(lines)
    {
      assert lines[i..][1..] == lines[i + 1..];
      subtotal := subtotal + lines[i].price * lines[i].quantity;
      count := count + lines[i].quantity;
      i := i + 1;
    }
    t := Totals(subtotal, subtotal, count);
  }

  /** With the line invariant, the subtotal is also the sum of the line totals and
      the count is at least the number of lines. */
  lemma {:induction false} TotalsOfValidLines(lines: seq<Line>)
    requires ValidLines(lines)
    ensures Subtotal(lines) == SumLineTotals(lines)
    ensures Count(lines) >= |lines|
  {
    if lines != [] {
      assert ValidLines(lines[1..]) by {
        forall i, j | 0 <= i < j < |lines[1..]| ensures lines[1..][i].id != lines[1..][j].id {
          assert lines[1..][i] == lines[i + 1] && lines[1..][j] == lines[j + 1];
        }
      }
      TotalsOfValidLines(lines[1..]);
    }
  }

  /** Replacing one line changes the count by the difference of the quantities. */
  lemma {:induction false} CountUpdate(lines: seq<Line>, k: nat, l: Line)
    requires k < |lines|
    ensures Count(lines[k := l]) == Count(lines) - lines[k].quantity + l.quantity
  {
    if k > 0 {
      CountUpdate(lines[1..], k - 1, l);
      assert lines[k := l][1..] == lines[1..][k - 1 := l];
    }
  }

  /** Appending a line adds its quantity to the count. */
  lemma {:induction false} CountAppend(lines: seq<Line>, l: Line)
    ensures Count(lines + [l]) == Count(lines) + l.quantity
  {
    if lines != [] {
      CountAppend(lines[1..], l);
      assert (lines + [l])[1..] == lines[1..] + [l];
    }
  }

  // ---------------------------------------------------------------------------
  // Catalog resolution and stock

  /** A resolved catalog entry: the product and, when a variant id was given, the variant. */
  datatype Resolved = Resolved(product: Product, variant: Option<Variant>)

  /** `resolveItem`: the product must exist, and so must the variant when a
      variant id is given; otherwise the call fails with status 404. */
  function ResolveItem(c: Catalog, productId: string, variantId: Option<string>): (r: Result<Resolved, Error>)
    ensures GetProductById(c, productId).None? ==> r == Err(ProductNotFound)
    ensures GetProductById(c, productId).Some? && Given(variantId)
            && GetVariantById(GetProductById(c, productId), variantId.value).None?
            ==> r == Err(VariantNotFound)
    ensures r.Err? ==> r.error.status == 404
    ensures r.Ok? ==>
      && r.value.product.id == productId
      && r.value.product in c
      && (r.value.variant.Some? <==> Given(variantId))
      && (r.value.variant.Some? ==>
            && r.value.variant.value.id == variantId.value
            && r.value.product.variants.Some?
            && r.value.variant.value in r.value.product.variants.value)
    ensures r.Ok? <==>
      && GetProductById(c, productId).Some?
      && (!Given(variantId) || GetVariantById(GetProductById(c, productId), variantId.value).Some?)
    ensures r.Ok? ==> GetProductById(c, productId) == Some(r.value.product)
    ensures r.Ok? && Given(variantId) ==>
      r.value.variant == GetVariantById(GetProductById(c, productId), variantId.value)
  {
    var product := GetProductById(c, productId);
    if product.None? then Err(ProductNotFound)
    else if Given(variantId) then
      var variant := GetVariantById(product, variantId.value);
      if variant.None? then Err(VariantNotFound)
      else Ok(Resolved(product.value, variant))
    else Ok(Resolved(product.value, None))
  }

  /** The stock ceiling: the variant's stock when it defines one, else the
      product's, else none (unlimited). */
  function Ceiling(r: Resolved): Option<int> {
    if r.variant.Some? && r.variant.value.stock.Some? then r.variant.value.stock
    else r.product.stock
  }

  predicate WithinStock(r: Resolved, qty: int) {
    Ceiling(r).None? || qty <= Ceiling(r).value
  }

  /** `ensureStock`: fails with status 400 exactly when the desired quantity
      exceeds the applicable stock. */
  function EnsureStock(r: Resolved, desired: int): (e: Option<Error>)
    ensures e.Some? ==> e.value == InsufficientStock
    ensures r.variant.Some? && r.variant.value.stock.Some? ==>
      (e.Some? <==> desired > r.variant.value.stock.value)
    ensures (r.variant.None? || r.variant.value.stock.None?) && r.product.stock.Some? ==>
      (e.Some? <==> desired > r.product.stock.value)
    ensures (r.variant.None? || r.variant.value.stock.None?) && r.product.stock.None? ==> e.None?
  {
    if WithinStock(r, desired) then None else Some(InsufficientStock)
  }

  /** The unit price: the variant's price, else the product's, else `fallback`. */
  function UnitPrice(r: Resolved, fallback: int): (p: int)
    ensures r.variant.Some? && r.variant.value.price.Some? ==> p == r.variant.value.price.value
    ensures !(r.variant.Some? && r.variant.value.price.Some?) && r.product.price.Some? ==>
      p == r.product.price.value
    ensures !(r.variant.Some? && r.variant.value.price.Some?) && r.product.price.None? ==>
      p == fallback
  {
    if r.variant.Some? && r.variant.value.price.Some? then r.variant.value.price.value
    else r.product.price.GetOr(fallback)
  }

  /** The line name: "Product - Variant" when the variant has a non-empty name. */
  function DisplayName(r: Resolved): (name: string)
    ensures |r.product.name| <= |name| && name[..|r.product.name|] == r.product.name
    ensures name == r.product.name <==> !(r.variant.Some? && r.variant.value.name != "")
    ensures r.variant.Some? && r.variant.value.name != "" ==>
      name[|r.product.name|..] == " - " + r.variant.value.name
  {
    if r.variant.Some? && r.variant.value.name != "" then r.product.name + " - " + r.variant.value.name
    else r.product.name
  }

  /** The quantity already held under `key`, 0 when no line has it. */
  function Held(lines: seq<Line>, key: string): (h: int)
    ensures (forall i :: 0 <= i < |lines| ==> lines[i].id != key) ==> h == 0
    ensures ValidLines(lines) && (exists i :: 0 <= i < |lines| && lines[i].id == key) ==> h >= 1
    ensures forall i :: 0 <= i < |lines| && lines[i].id == key && ValidLines(lines) ==>
      h == lines[i].quantity
  {
    var k := LineIndex(lines, key);
    if k < |lines| then lines[k].quantity else 0
  }

  // ---------------------------------------------------------------------------
  // Mutations

  /** `addItem`: merges `qty` into the line keyed by product and variant, or
      appends a new line. The stock check is on the merged quantity. */
  function AddItem(c: Catalog, store: Store, cartId: string, productId: string,
                   variantId: Option<string>, qty: int): (out: Outcome<seq<Line>>)
    requires qty >= 1
    ensures out.store.Keys == store.Keys + {cartId}
    ensures forall id :: id in store && id != cartId ==> out.store[id] == store[id]
    ensures out.result.Err? ==> out.store[cartId] == LinesOf(store, cartId)
    ensures out.result.Ok? ==> out.store[cartId] == out.result.value
    ensures ResolveItem(c, productId, variantId).Err? ==>
      out.result == Err(ResolveItem(c, productId, variantId).error)
    ensures ResolveItem(c, productId, variantId).Ok? ==>
      var res := ResolveItem(c, productId, variantId).value;
      var held := Held(LinesOf(store, cartId), Key(productId, variantId));
      && (out.result.Err? <==> !WithinStock(res, held + qty))
      && (out.result.Err? ==> out.result.error == InsufficientStock)
  {
    var (s1, lines) := GetOrCreateCart(store, cartId);
    match ResolveItem(c, productId, variantId)
    case Err(e) => Outcome(s1, Err(e))
    case Ok(res) =>
      var itemId := Key(productId, variantId);
      var k := LineIndex(lines, itemId);
      var nextQty := (if k < |lines| then lines[k].quantity else 0) + qty;
      match EnsureStock(res, nextQty)
      case Some(e) => Outcome(s1, Err(e))
      case None =>
        var price := UnitPrice(res, 0);
        var name := DisplayName(res);
        var imageUrl := res.product.imageUrl;
        var next :=
          if k < |lines| then
            lines[k := lines[k].(quantity := nextQty, price := price, name := name,
                                 imageUrl := imageUrl, lineTotal := price * nextQty)]
          else
            lines + [Line(itemId, productId, if Given(variantId) then variantId else None,
                          name, price, qty, price * qty, imageUrl)];
        Outcome(s1[cartId := next], Ok(next))
  }

  /** Adding under a key the cart already holds merges into that line: its
      quantity becomes old + `qty`, its snapshot fields are refreshed, its line
      total is recomputed, and every other line is unchanged. */
  lemma AddItemMerges(c: Catalog, store: Store, cartId: string, productId: string,
                      variantId: Option<string>, qty: int)
    requires qty >= 1
    requires AddItem(c, store, cartId, productId, variantId, qty).result.Ok?
    requires LineIndex(LinesOf(store, cartId), Key(productId, variantId)) < |LinesOf(store, cartId)|
    ensures
      var L := LinesOf(store, cartId);
      var N := AddItem(c, store, cartId, productId, variantId, qty).result.value;
      var k := LineIndex(L, Key(productId, variantId));
      var res := ResolveItem(c, productId, variantId).value;
      && |N| == |L|
      && N[k] == L[k].(quantity := L[k].quantity + qty, price := UnitPrice(res, 0),
                       name := DisplayName(res), imageUrl := res.product.imageUrl,
                       lineTotal := UnitPrice(res, 0) * (L[k].quantity + qty))
      && forall j :: 0 <= j < |L| && j != k ==> N[j] == L[j]
  {
  }

  /** Adding under a new key appends one line at the end with quantity `qty`;
      the earlier lines keep their order and values. */
  lemma AddItemAppends(c: Catalog, store: Store, cartId: string, productId: string,
                       variantId: Option<string>, qty: int)
    requires qty >= 1
    requires AddItem(c, store, cartId, productId, variantId, qty).result.Ok?
    requires forall i :: 0 <= i < |LinesOf(store, cartId)| ==>
               LinesOf(store, cartId)[i].id != Key(productId, variantId)
    ensures
      var L := LinesOf(store, cartId);
      var N := AddItem(c, store, cartId, productId, variantId, qty).result.value;
      var res := ResolveItem(c, productId, variantId).value;
      && |N| == |L| + 1
      && N[..|L|] == L
      && N[|L|] == Line(Key(productId, variantId), productId,
                        if Given(variantId) then variantId else None,
                        DisplayName(res), UnitPrice(res, 0), qty, UnitPrice(res, 0) * qty,
                        res.product.imageUrl)
  {
  }

  /** A successful add raises the quantity held under the key by exactly `qty`,
      and the cart's item count by the same amount. */
  lemma AddItemHeld(c: Catalog, store: Store, cartId: string, productId: string,
                    variantId: Option<string>, qty: int)
    requires qty >= 1
    requires AddItem(c, store, cartId, productId, variantId, qty).result.Ok?
    ensures
      var L := LinesOf(store, cartId);
      var N := AddItem(c, store, cartId, productId, variantId, qty).result.value;
      var key := Key(productId, variantId);
      && LineIndex(N, key) < |N|
      && Held(N, key) == Held(L, key) + qty
      && Count(N) == Count(L) + qty
  {
    var L := LinesOf(store, cartId);
    var N := AddItem(c, store, cartId, productId, variantId, qty).result.value;
    var key := Key(productId, variantId);
    var k := LineIndex(L, key);
    if k < |L| {
      AddItemMerges(c, store, cartId, productId, variantId, qty);
      assert N[k].id == key;
      CountUpdate(L, k, N[k]);
      assert N == L[k := N[k]];
    } else {
      AddItemAppends(c, store, cartId, productId, variantId, qty);
      assert N[|L|].id == key;
      CountAppend(L, N[|L|]);
      assert N == L + [N[|L|]];
    }
  }

  /** Adding keeps the store invariant: every line has quantity at least 1 and
      `lineTotal == price * quantity`, and no key appears on two lines. */
  lemma AddItemPreservesValid(c: Catalog, store: Store, cartId: string, productId: string,
                              variantId: Option<string>, qty: int)
    requires qty >= 1
    requires ValidStore(store)
    ensures ValidStore(AddItem(c, store, cartId, productId, variantId, qty).store)
  {
    var out := AddItem(c, store, cartId, productId, variantId, qty);
    var L := LinesOf(store, cartId);
    if out.result.Ok? {
      var N := out.result.value;
      var key := Key(productId, variantId);
      var k := LineIndex(L, key);
      if k < |L| {
        AddItemMerges(c, store, cartId, productId, variantId, qty);
        ReplaceLineValid(L, k, N);
      } else {
        AddItemAppends(c, store, cartId, productId, variantId, qty);
        AppendLineValid(L, N);
      }
    }
    StoreUpdateValid(store, cartId, out.store);
  }

  /** A store that differs from a valid one only in a cart holding valid lines is valid. */
  lemma StoreUpdateValid(store: Store, cartId: string, next: Store)
    requires ValidStore(store)
    requires next.Keys == store.Keys + {cartId}
    requires forall id :: id in store && id != cartId ==> next[id] == store[id]
    requires ValidLines(next[cartId])
    ensures ValidStore(next)
  {
  }

  /** Replacing line `k` by a well-formed line with the same key keeps the lines valid. */
  lemma ReplaceLineValid(L: seq<Line>, k: nat, N: seq<Line>)
    requires ValidLines(L)
    requires k < |L| == |N|
    requires ValidLine(N[k]) && N[k].id == L[k].id
    requires forall j :: 0 <= j < |L| && j != k ==> N[j] == L[j]
    ensures ValidLines(N)
  {
    assert forall i :: 0 <= i < |N| ==> N[i].id == L[i].id;
  }

  /** Appending a well-formed line under a key not yet present keeps the lines valid. */
  lemma AppendLineValid(L: seq<Line>, N: seq<Line>)
    requires ValidLines(L)
    requires |N| == |L| + 1 && N[..|L|] == L
    requires ValidLine(N[|L|])
    requires forall i :: 0 <= i < |L| ==> L[i].id != N[|L|].id
    ensures ValidLines(N)
  {
    assert forall i :: 0 <= i < |L| ==> N[i] == L[i];
  }

  /** Adding `q1` and then `q2` under the same key leaves one line for that key,
      holding the earlier quantity plus `q1 + q2`, with its line total equal to
      price times that quantity. */
  lemma AddTwiceMerges(c: Catalog, store: Store, cartId: string, productId: string,
                       variantId: Option<string>, q1: int, q2: int)
    requires q1 >= 1 && q2 >= 1
    requires ValidStore(store)
    requires AddItem(c, store, cartId, productId, variantId, q1).result.Ok?
    requires AddItem(c, AddItem(c, store, cartId, productId, variantId, q1).store,
                     cartId, productId, variantId, q2).result.Ok?
    ensures
      var key := Key(productId, variantId);
      var s1 := AddItem(c, store, cartId, productId, variantId, q1).store;
      var N := AddItem(c, s1, cartId, productId, variantId, q2).result.value;
      var k := LineIndex(N, key);
      && k < |N|
      && N[k].quantity == Held(LinesOf(store, cartId), key) + q1 + q2
      && N[k].lineTotal == N[k].price * N[k].quantity
      && forall j :: 0 <= j < |N| && j != k ==> N[j].id != key
  {
    var key := Key(productId, variantId);
    var s1 := AddItem(c, store, cartId, productId, variantId, q1).store;
    AddItemHeld(c, store, cartId, productId, variantId, q1);
    AddItemPreservesValid(c, store, cartId, productId, variantId, q1);
    AddItemHeld(c, s1, cartId, productId, variantId, q2);
    AddItemPreservesValid(c, s1, cartId, productId, variantId, q2);
    var s2 := AddItem(c, s1, cartId, productId, variantId, q2).store;
    assert ValidLines(s2[cartId]);
  }

  /** `updateItem`: sets the line's quantity to exactly `qty` (replace, not
      merge), re-checking stock against that absolute value and refreshing the
      price; a missing line yields no cart (`null`) and changes nothing. */
  function UpdateItem(c: Catalog, store: Store, cartId: string, itemId: string, qty: int)
    : (out: Outcome<Option<seq<Line>>>)
    requires qty >= 1
    ensures out.store.Keys == store.Keys + {cartId}
    ensures forall id :: id in store && id != cartId ==> out.store[id] == store[id]
    ensures (out.result.Err? || out.result.value.None?) ==> out.store[cartId] == LinesOf(store, cartId)
    ensures out.result == Ok(None) <==>
      forall i :: 0 <= i < |LinesOf(store, cartId)| ==> LinesOf(store, cartId)[i].id != itemId
    ensures LineIndex(LinesOf(store, cartId), itemId) < |LinesOf(store, cartId)| ==>
      var l := LinesOf(store, cartId)[LineIndex(LinesOf(store, cartId), itemId)];
      var res := ResolveItem(c, l.productId, l.variantId);
      && (res.Err? ==> out.result == Err(res.error))
      && (res.Ok? ==> (out.result.Err? <==> !WithinStock(res.value, qty)))
      && (res.Ok? && !WithinStock(res.value, qty) ==> out.result == Err(InsufficientStock))
      && (out.result.Err? ==> out.result.error.status in {400, 404})
    ensures out.result.Ok? && out.result.value.Some? ==>
      var L := LinesOf(store, cartId);
      var N := out.result.value.value;
      var k := LineIndex(L, itemId);
      var res := ResolveItem(c, L[k].productId, L[k].variantId).value;
      && out.store[cartId] == N
      && |N| == |L|
      && N[k] == L[k].(quantity := qty, price := UnitPrice(res, L[k].price),
                       lineTotal := UnitPrice(res, L[k].price) * qty)
      && forall j :: 0 <= j < |L| && j != k ==> N[j] == L[j]
  {
    var (s1, lines) := GetOrCreateCart(store, cartId);
    var k := LineIndex(lines, itemId);
    if k == |lines| then Outcome(s1, Ok(None))
    else
      var item := lines[k];
      match ResolveItem(c, item.productId, item.variantId)
      case Err(e) => Outcome(s1, Err(e))
      case Ok(res) =>
        match EnsureStock(res, qty)
        case Some(e) => Outcome(s1, Err(e))
        case None =>
          assert lines == LinesOf(store, cartId) && lines[k].id == itemId;
          var price := UnitPrice(res, item.price);
          var next := lines[k := item.(quantity := qty, price := price, lineTotal := price * qty)];
          Outcome(s1[cartId := next], Ok(Some(next)))
  }

  /** `removeItem`: drops every line with id `itemId`; nothing else changes. */
  function RemoveItem(store: Store, cartId: string, itemId: string): (r: (Store, seq<Line>))
    ensures r.0.Keys == store.Keys + {cartId}
    ensures r.0[cartId] == r.1
    ensures forall id :: id in store && id != cartId ==> r.0[id] == store[id]
    ensures IsSubsequence(r.1, LinesOf(store, cartId))
    ensures forall i :: 0 <= i < |r.1| ==> r.1[i].id != itemId && r.1[i] in LinesOf(store, cartId)
    ensures forall i :: 0 <= i < |LinesOf(store, cartId)| && LinesOf(store, cartId)[i].id != itemId
                        ==> LinesOf(store, cartId)[i] in r.1
    ensures forall l: Line ::
      multiset(r.1)[l] == (if l.id != itemId then multiset(LinesOf(store, cartId))[l] else 0)
  {
    var (s1, lines) := GetOrCreateCart(store, cartId);
    var keep := (l: Line) => l.id != itemId;
    FilterIsSubsequence(lines, keep);
    FilterMultiset(lines, keep);
    var next := Filter(lines, keep);
    (s1[cartId := next], next)
  }

  /** `clearCart`: the cart is left with no lines; other carts are untouched. */
  function ClearCart(store: Store, cartId: string): (s: Store)
    ensures s.Keys == store.Keys + {cartId}
    ensures s[cartId] == []
    ensures forall id :: id in store && id != cartId ==> s[id] == store[id]
  {
    var (s1, _) := GetOrCreateCart(store, cartId);
    s1[cartId := []]
  }

  // ---------------------------------------------------------------------------
  // Frame and idempotence properties

  /** Creating, looking up and clearing a cart keep the store invariant: each
      only adds or empties a cart. */
  lemma CreateCartPreservesValid(store: Store, freshId: string)
    requires freshId !in store
    requires ValidStore(store)
    ensures ValidStore(CreateCart(store, freshId))
  {
  }

  lemma GetOrCreateCartPreservesValid(store: Store, id: string)
    requires ValidStore(store)
    ensures ValidStore(GetOrCreateCart(store, id).0)
    ensures ValidLines(GetOrCreateCart(store, id).1)
  {
  }

  lemma ClearCartPreservesValid(store: Store, cartId: string)
    requires ValidStore(store)
    ensures ValidStore(ClearCart(store, cartId))
  {
  }

  /** Updating keeps the store invariant. */
  lemma UpdateItemPreservesValid(c: Catalog, store: Store, cartId: string, itemId: string, qty: int)
    requires qty >= 1
    requires ValidStore(store)
    ensures ValidStore(UpdateItem(c, store, cartId, itemId, qty).store)
  {
    var out := UpdateItem(c, store, cartId, itemId, qty);
    var L := LinesOf(store, cartId);
    assert ValidLines(L);
    if out.result.Ok? && out.result.value.Some? {
      var N := out.result.value.value;
      var k := LineIndex(L, itemId);
      assert ValidLine(L[k]);
      ReplaceLineValid(L, k, N);
    }
    StoreUpdateValid(store, cartId, out.store);
  }

  /** Removing keeps the store invariant. */
  lemma RemoveItemPreservesValid(store: Store, cartId: string, itemId: string)
    requires ValidStore(store)
    ensures ValidStore(RemoveItem(store, cartId, itemId).0)
  {
    var L := LinesOf(store, cartId);
    var N := RemoveItem(store, cartId, itemId).1;
    assert ValidLines(L);
    SubsequenceKeepsDistinctIds(N, L);
  }

  /** A subsequence of well-formed lines with distinct ids is again such. */
  lemma {:induction false} SubsequenceKeepsDistinctIds(a: seq<Line>, b: seq<Line>)
    requires ValidLines(b)
    requires IsSubsequence(a, b)
    ensures ValidLines(a)
    decreases |b|
  {
    if |a| > 0 {
      assert ValidLines(b[1..]) by {
        forall i, j | 0 <= i < j < |b[1..]| ensures b[1..][i].id != b[1..][j].id {
          assert b[1..][i] == b[i + 1] && b[1..][j] == b[j + 1];
        }
      }
      if a[0] == b[0] && IsSubsequence(a[1..], b[1..]) {
        SubsequenceKeepsDistinctIds(a[1..], b[1..]);
        SubsequenceMembers(a[1..], b[1..]);
        forall j | 0 < j < |a| ensures a[0].id != a[j].id {
          assert a[j] == a[1..][j - 1];
          var m :| 0 <= m < |b[1..]| && b[1..][m] == a[j];
          assert b[m + 1] == a[j];
        }
        forall i, j | 0 <= i < j < |a| ensures a[i].id != a[j].id {
          if i > 0 {
            assert a[i] == a[1..][i - 1] && a[j] == a[1..][j - 1];
          }
        }
      } else {
        SubsequenceKeepsDistinctIds(a, b[1..]);
      }
    }
  }

  /** Every element of a subsequence occurs in the sequence. */
  lemma {:induction false} SubsequenceMembers(a: seq<Line>, b: seq<Line>)
    requires IsSubsequence(a, b)
    ensures forall i :: 0 <= i < |a| ==> exists m :: 0 <= m < |b| && b[m] == a[i]
    decreases |b|
  {
    if |a| > 0 {
      if a[0] == b[0] && IsSubsequence(a[1..], b[1..]) {
        SubsequenceMembers(a[1..], b[1..]);
        forall i | 0 < i < |a| ensures exists m :: 0 <= m < |b| && b[m] == a[i] {
          assert a[i] == a[1..][i - 1];
          var m :| 0 <= m < |b[1..]| && b[1..][m] == a[i];
          assert b[m + 1] == a[i];
        }
        assert b[0] == a[0];
      } else {
        SubsequenceMembers(a, b[1..]);
        forall i | 0 <= i < |a| ensures exists m :: 0 <= m < |b| && b[m] == a[i] {
          var m :| 0 <= m < |b[1..]| && b[1..][m] == a[i];
          assert b[m + 1] == a[i];
        }
      }
    }
  }

  /** Removing is idempotent: a second removal of the same id is a no-op. */
  lemma RemoveItemIdempotent(store: Store, cartId: string, itemId: string)
    ensures
      var once := RemoveItem(store, cartId, itemId);
      RemoveItem(once.0, cartId, itemId) == once
  {
    var keep := (l: Line) => l.id != itemId;
    var once := RemoveItem(store, cartId, itemId);
    assert LinesOf(once.0, cartId) == Filter(LinesOf(store, cartId), keep);
    FilterIdempotent(LinesOf(store, cartId), keep);
    var twice := RemoveItem(once.0, cartId, itemId);
    assert twice.1 == Filter(once.1, keep) == once.1;
    assert once.0[cartId := once.1] == once.0;
  }

  /** Removing an id no line carries leaves the lines as they were. */
  lemma RemoveItemAbsent(store: Store, cartId: string, itemId: string)
    requires forall i :: 0 <= i < |LinesOf(store, cartId)| ==> LinesOf(store, cartId)[i].id != itemId
    ensures RemoveItem(store, cartId, itemId).1 == LinesOf(store, cartId)
  {
    FilterAll(LinesOf(store, cartId), (l: Line) => l.id != itemId);
  }

  /** Clearing is idempotent. */
  lemma ClearCartIdempotent(store: Store, cartId: string)
    ensures ClearCart(ClearCart(store, cartId), cartId) == ClearCart(store, cartId)
  {
    var once := ClearCart(store, cartId);
    assert once[cartId := []] == once;
  }

  /** Getting or creating a cart twice is the same as doing it once. */
  lemma GetOrCreateCartIdempotent(store: Store, id: string)
    ensures GetOrCreateCart(GetOrCreateCart(store, id).0, id) == GetOrCreateCart(store, id)
  {
  }

  /** A freshly created cart is found empty by the next lookup, which changes nothing. */
  lemma CreateThenGet(store: Store, freshId: string)
    requires freshId !in store
    ensures GetOrCreateCart(CreateCart(store, freshId), freshId) == (CreateCart(store, freshId), [])
  {
  }
}
