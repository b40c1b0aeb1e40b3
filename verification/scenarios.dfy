/** Concrete walk-throughs of the cart-to-order lifecycle on a one-product catalog. */
module Scenarios {
  import opened Wrappers
  import opened ProductsService
  import opened CartService
  import opened CheckoutService

  /** A single product "p1" priced 100 with the given stock and no variants. */
  function OneProduct(stock: int): Catalog {
    [Product("p1", "Runner", Some(100), Some(stock), "p1.jpg", None, "running", "nike", None,
             false, false, false)]
  }

  const Buyer := Shipping("An", "0901234567", "1 Main St")

  /** Add 2, update to 5, check out with cash on delivery: totals 200 then 500,
      an unpaid order of 500, and an empty cart. */
  lemma AddUpdateCheckout()
    ensures
      var c := OneProduct(10);
      var added := AddItem(c, map[], "cart", "p1", None, 2);
      var updated := UpdateItem(c, added.store, "cart", "p1", 5);
      var done := Checkout(updated.store, Ledger([], []), "cart", Buyer, None, "COD", "ord_1", "t0");
      && added.result == Ok([Line("p1", "p1", None, "Runner", 100, 2, 200, "p1.jpg")])
      && TotalsOf(added.result.value) == Totals(200, 200, 2)
      && updated.result.Ok? && updated.result.value.Some?
      && updated.result.value.value[0].lineTotal == 500
      && done.result.Ok?
      && done.result.value.order.amount == 500
      && done.result.value.order.paymentStatus == "unpaid"
      && done.store["cart"] == []
  {
    var c := OneProduct(10);
    var added := AddItem(c, map[], "cart", "p1", None, 2);
    AddStep();
    UpdateStep(added.store);
    var updated := UpdateItem(c, added.store, "cart", "p1", 5);
    CheckoutStep(updated.store);
  }

  /** The line for "p1" at quantity `q`. */
  function RunnerLine(q: int): Line {
    Line("p1", "p1", None, "Runner", 100, q, 100 * q, "p1.jpg")
  }

  /** First step: adding 2 to a new cart appends one line with total 200. */
  lemma AddStep()
    ensures
      var added := AddItem(OneProduct(10), map[], "cart", "p1", None, 2);
      && added.result == Ok([RunnerLine(2)])
      && added.store["cart"] == [RunnerLine(2)]
      && TotalsOf(added.result.value) == Totals(200, 200, 2)
  {
    var c := OneProduct(10);
    var added := AddItem(c, map[], "cart", "p1", None, 2);
    ResolvesP1(c);
    assert Held([], "p1") == 0;
    assert added.result.Ok?;
    AddItemAppends(c, map[], "cart", "p1", None, 2);
  }

  /** Second step: updating the line to 5 replaces its quantity and total. */
  lemma UpdateStep(store: Store)
    requires "cart" in store && store["cart"] == [RunnerLine(2)]
    ensures
      var updated := UpdateItem(OneProduct(10), store, "cart", "p1", 5);
      && updated.result == Ok(Some([RunnerLine(5)]))
      && updated.store["cart"] == [RunnerLine(5)]
  {
    var c := OneProduct(10);
    ResolvesP1(c);
    var updated := UpdateItem(c, store, "cart", "p1", 5);
    assert LineIndex(LinesOf(store, "cart"), "p1") == 0;
    assert UnitPrice(Resolved(c[0], None), 100) == 100;
    assert updated.result.Ok?;
    assert updated.result != Ok(None);
    var N := updated.result.value.value;
    assert N[0] == RunnerLine(5);
    assert N == [N[0]];
  }

  /** Last step: a cash-on-delivery checkout of that cart. */
  lemma CheckoutStep(store: Store)
    requires "cart" in store && store["cart"] == [RunnerLine(5)]
    ensures
      var done := Checkout(store, Ledger([], []), "cart", Buyer, None, "COD", "ord_1", "t0");
      && done.result.Ok?
      && done.result.value.order.amount == 500
      && done.result.value.order.paymentStatus == "unpaid"
      && done.store["cart"] == []
  {
    assert Subtotal([RunnerLine(5)]) == 500;
  }

  /** With stock 5, adding 3 succeeds and adding 3 more fails with "Insufficient
      stock", leaving the line at quantity 3. */
  lemma StockCeilingScenario()
    ensures
      var c := OneProduct(5);
      var first := AddItem(c, map[], "cart", "p1", None, 3);
      var second := AddItem(c, first.store, "cart", "p1", None, 3);
      && first.result.Ok?
      && second.result == Err(InsufficientStock)
      && second.store["cart"] == first.store["cart"]
      && second.store["cart"][0].quantity == 3
  {
    var c := OneProduct(5);
    ResolvesP1(c);
    var first := AddItem(c, map[], "cart", "p1", None, 3);
    assert Held([], "p1") == 0;
    assert first.result.Ok?;
    AddItemAppends(c, map[], "cart", "p1", None, 3);
    assert first.result == Ok([Line("p1", "p1", None, "Runner", 100, 3, 300, "p1.jpg")]);
    assert Held(LinesOf(first.store, "cart"), "p1") == 3;
  }

  /** "p1" resolves to the catalog's only product, as a line keyed "p1" priced 100. */
  lemma ResolvesP1(c: Catalog)
    requires |c| == 1 && c[0].id == "p1" && c[0].price == Some(100) && c[0].name == "Runner"
    ensures ResolveItem(c, "p1", None) == Ok(Resolved(c[0], None))
    ensures Key("p1", None) == "p1"
    ensures UnitPrice(Resolved(c[0], None), 0) == 100
    ensures DisplayName(Resolved(c[0], None)) == "Runner"
  {
  }
}
