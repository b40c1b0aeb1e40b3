/** The checkout transaction and the append-only order ledger: a non-empty cart
    becomes one order plus one order item per line, and the cart is emptied, all
    in one atomic transition. */
module CheckoutService {
  import opened Wrappers
  import opened CartService

  datatype Shipping = Shipping(name: string, phone: string, address: string)

  /** An order record; never changed once appended to the ledger. */
  datatype Order = Order(
    id: string,
    cartId: string,
    shipping: Shipping,
    note: string,
    paymentMethod: string,
    amount: int,
    status: string,
    paymentStatus: string,
    createdAt: string)

  /** A frozen copy of one cart line, keyed `orderId:lineId`. */
  datatype OrderItem = OrderItem(
    id: string,
    orderId: string,
    productId: string,
    variantId: Option<string>,
    name: string,
    price: int,
    quantity: int,
    lineTotal: int,
    imageUrl: string)

  /** The two append-only collections of the order store. */
  datatype Ledger = Ledger(orders: seq<Order>, orderItems: seq<OrderItem>)

  /** What a successful checkout returns: the order and the pre-clear totals. */
  datatype Receipt = Receipt(order: Order, totals: Totals)

  datatype CheckoutOutcome = CheckoutOutcome(store: Store, ledger: Ledger, result: Result<Receipt, Error>)

  const EmptyCart := Error(400, "Cart is empty")

  /** What request validation guarantees before checkout is called: a non-empty
      cart id, a non-empty name, a phone of at least 6 and an address of at least
      3 characters, and a payment method of COD or bank. */
  predicate ValidRequest(cartId: string, shipping: Shipping, paymentMethod: string) {
    && |cartId| >= 1
    && |shipping.name| >= 1
    && |shipping.phone| >= 6
    && |shipping.address| >= 3
    && (paymentMethod == "COD" || paymentMethod == "bank")
  }

  /** The order item recorded for line `l` of order `orderId`. */
  function Snapshot(orderId: string, l: Line): (item: OrderItem)
    ensures item.orderId == orderId
    ensures |item.id| == |orderId| + 1 + |l.id|
    ensures item.id[..|orderId|] == orderId && item.id[|orderId|] == ':' && item.id[|orderId| + 1..] == l.id
    ensures ValidLine(l) ==> item.quantity >= 1 && item.lineTotal == item.price * item.quantity
  {
    OrderItem(orderId + ":" + l.id, orderId, l.productId, l.variantId, l.name,
              l.price, l.quantity, l.lineTotal, l.imageUrl)
  }

  /** One order item per cart line, in cart order, each a copy of its line. */
  function OrderItemsFor(orderId: string, lines: seq<Line>): (r: seq<OrderItem>)
    ensures |r| == |lines|
    ensures forall i :: 0 <= i < |lines| ==>
      && r[i].id == orderId + ":" + lines[i].id
      && r[i].orderId == orderId
      && r[i].productId == lines[i].productId
      && r[i].variantId == lines[i].variantId
      && r[i].name == lines[i].name
      && r[i].price == lines[i].price
      && r[i].quantity == lines[i].quantity
      && r[i].lineTotal == lines[i].lineTotal
      && r[i].imageUrl == lines[i].imageUrl
  {
    if lines == [] then [] else [Snapshot(orderId, lines[0])] + OrderItemsFor(orderId, lines[1..])
  }

  function SumItemTotals(items: seq<OrderItem>): int {
    if items == [] then 0 else items[0].lineTotal + SumItemTotals(items[1..])
  }

  function PaymentStatus(paymentMethod: string): (status: string)
    ensures status == "pending" <==> paymentMethod == "bank"
    ensures status == "unpaid" <==> paymentMethod != "bank"
  {
    if paymentMethod == "bank" then "pending" else "unpaid"
  }

  /** `checkout`, with the generated order id and the creation timestamp passed in. */
  function Checkout(store: Store, ledger: Ledger, cartId: string, shipping: Shipping,
                    note: Option<string>, paymentMethod: string, orderId: string,
                    createdAt: string): (out: CheckoutOutcome)
    requires ValidRequest(cartId, shipping, paymentMethod)
    ensures out.store.Keys == store.Keys + {cartId}
    ensures forall id :: id in store && id != cartId ==> out.store[id] == store[id]
    ensures out.store[cartId] == []
    ensures out.result.Err? <==> LinesOf(store, cartId) == []
    ensures out.result.Err? ==> out.result.error == EmptyCart && out.ledger == ledger
    ensures out.result.Ok? ==>
      var L := LinesOf(store, cartId);
      var o := out.result.value.order;
      && out.result.value.totals == TotalsOf(L)
      && o.amount == Subtotal(L)
      && o.id == orderId
      && o.cartId == cartId
      && o.shipping == shipping
      && o.paymentMethod == paymentMethod
      && o.createdAt == createdAt
      && o.status == "created"
      && (o.paymentStatus == "pending" <==> paymentMethod == "bank")
      && (o.paymentStatus == "unpaid" <==> paymentMethod == "COD")
      && o.note == note.GetOr("")
      && out.ledger.orders == ledger.orders + [o]
      && |out.ledger.orderItems| == |ledger.orderItems| + |L|
      && out.ledger.orderItems[..|ledger.orderItems|] == ledger.orderItems
      && out.ledger.orderItems[|ledger.orderItems|..] == OrderItemsFor(orderId, L)
  {
    var (s1, lines) := GetOrCreateCart(store, cartId);
    if |lines| == 0 then CheckoutOutcome(s1, ledger, Err(EmptyCart))
    else
      var totals := TotalsOf(lines);
      var order := Order(orderId, cartId, shipping, note.GetOr(""), paymentMethod,
                         totals.total, "created", PaymentStatus(paymentMethod), createdAt);
      var next := Ledger(ledger.orders + [order], ledger.orderItems + OrderItemsFor(orderId, lines));
      CheckoutOutcome(ClearCart(s1, cartId), next, Ok(Receipt(order, totals)))
  }

  /** The order items' line totals add up to the lines' line totals. */
  lemma {:induction false} OrderItemsTotal(orderId: string, lines: seq<Line>)
    ensures SumItemTotals(OrderItemsFor(orderId, lines)) == SumLineTotals(lines)
  {
    if lines != [] {
      OrderItemsTotal(orderId, lines[1..]);
    }
  }

  /** For a cart that keeps the line invariant, the order items appended by a
      checkout sum to the order's amount. */
  lemma CheckoutItemsSumToAmount(store: Store, ledger: Ledger, cartId: string, shipping: Shipping,
                                 note: Option<string>, paymentMethod: string, orderId: string,
                                 createdAt: string)
    requires ValidRequest(cartId, shipping, paymentMethod)
    requires ValidStore(store)
    requires Checkout(store, ledger, cartId, shipping, note, paymentMethod, orderId, createdAt).result.Ok?
    ensures
      var out := Checkout(store, ledger, cartId, shipping, note, paymentMethod, orderId, createdAt);
      SumItemTotals(out.ledger.orderItems[|ledger.orderItems|..]) == out.result.value.order.amount
  {
    var L := LinesOf(store, cartId);
    assert ValidLines(L);
    TotalsOfValidLines(L);
    OrderItemsTotal(orderId, L);
  }

  /** Distinct line ids give distinct order item ids within one order. */
  lemma CheckoutItemIdsDistinct(orderId: string, lines: seq<Line>)
    requires ValidLines(lines)
    ensures forall i, j :: 0 <= i < j < |lines| ==>
      OrderItemsFor(orderId, lines)[i].id != OrderItemsFor(orderId, lines)[j].id
  {
    var items := OrderItemsFor(orderId, lines);
    var p := orderId + ":";
    forall i, j | 0 <= i < j < |lines| ensures items[i].id != items[j].id {
      assert (p + lines[i].id)[|p|..] == lines[i].id;
      assert (p + lines[j].id)[|p|..] == lines[j].id;
    }
  }

  /** A checkout keeps the store invariant. */
  lemma CheckoutPreservesValid(store: Store, ledger: Ledger, cartId: string, shipping: Shipping,
                               note: Option<string>, paymentMethod: string, orderId: string,
                               createdAt: string)
    requires ValidRequest(cartId, shipping, paymentMethod)
    requires ValidStore(store)
    ensures ValidStore(Checkout(store, ledger, cartId, shipping, note, paymentMethod, orderId, createdAt).store)
  {
  }

  /** Checking out twice in a row: the second attempt finds the cart empty, fails
      with "Cart is empty" and appends nothing. */
  lemma CheckoutTwiceFails(store: Store, ledger: Ledger, cartId: string, shipping: Shipping,
                           note: Option<string>, paymentMethod: string, orderId: string,
                           orderId2: string, createdAt: string)
    requires ValidRequest(cartId, shipping, paymentMethod)
    ensures
      var first := Checkout(store, ledger, cartId, shipping, note, paymentMethod, orderId, createdAt);
      var second := Checkout(first.store, first.ledger, cartId, shipping, note, paymentMethod, orderId2, createdAt);
      && second.result == Err(EmptyCart)
      && second.ledger == first.ledger
      && second.store == first.store
  {
  }
}
