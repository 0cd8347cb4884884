/** Checkout (CheckoutController): the checkout page, and placing an order,
    which turns the caller's cart into one pending order with one item per
    cart row inside a single transaction. */
module Checkout {

  import opened Base
  import opened Seqs
  import opened Catalog
  import opened Cart
  import opened Orders
  import opened Products

  // ---------------------------------------------------------------------
  // index

  /** CheckoutController::index: an empty cart sends the caller back to the
      shop; otherwise the cart page's items and summary. */
  function Index(rows: seq<CartRow>, ps: seq<Product>, user: int): (r: Response<CartPage>)
    ensures CartOf(rows, user) == [] ==> r == Refused(EmptyCart)
    ensures r.Shown? <==> CartOf(rows, user) != [] && Loaded(Load(CartOf(rows, user), ps))
    ensures r.Refused? && CartOf(rows, user) != [] ==> r.why == ServerError
    ensures r.Shown? ==> r.view.items == Load(CartOf(rows, user), ps) && r.view.items != []
    ensures r.Shown? ==> r.view.summary == Summarize(r.view.items)
  {
    if CartOf(rows, user) == [] then Refused(EmptyCart) else Cart.Index(rows, ps, user)
  }

  /** For a cart that is not empty, the checkout page shows exactly what the
      cart page shows. */
  lemma SameSummaryAsCart(rows: seq<CartRow>, ps: seq<Product>, user: int)
    requires CartOf(rows, user) != []
    ensures Index(rows, ps, user) == Cart.Index(rows, ps, user)
  {
  }

  // ---------------------------------------------------------------------
  // store: validation

  /** The fields the checkout form must send. */
  const ShippingFields: set<string> :=
    {"first_name", "last_name", "email", "phone", "address", "city", "state", "zip_code"}

  /** The rules on who receives the order. */
  function ContactErrors(req: Request): (errs: set<string>)
    ensures errs <= {"first_name", "last_name", "email", "phone"}
    ensures "first_name" in errs <==> !RequiredText(Input(req, "first_name"), 255)
    ensures "last_name" in errs <==> !RequiredText(Input(req, "last_name"), 255)
    ensures "email" in errs <==> !RequiredEmail(Input(req, "email"), 255)
    ensures "phone" in errs <==> !RequiredText(Input(req, "phone"), 20)
  {
    (if RequiredText(Input(req, "first_name"), 255) then {} else {"first_name"})
    + (if RequiredText(Input(req, "last_name"), 255) then {} else {"last_name"})
    + (if RequiredEmail(Input(req, "email"), 255) then {} else {"email"})
    + (if RequiredText(Input(req, "phone"), 20) then {} else {"phone"})
  }

  /** The rules on where the order goes. */
  function AddressErrors(req: Request): (errs: set<string>)
    ensures errs <= {"address", "city", "state", "zip_code"}
    ensures "address" in errs <==> !RequiredText(Input(req, "address"), 255)
    ensures "city" in errs <==> !RequiredText(Input(req, "city"), 255)
    ensures "state" in errs <==> !RequiredText(Input(req, "state"), 255)
    ensures "zip_code" in errs <==> !RequiredText(Input(req, "zip_code"), 10)
  {
    (if RequiredText(Input(req, "address"), 255) then {} else {"address"})
    + (if RequiredText(Input(req, "city"), 255) then {} else {"city"})
    + (if RequiredText(Input(req, "state"), 255) then {} else {"state"})
    + (if RequiredText(Input(req, "zip_code"), 10) then {} else {"zip_code"})
  }

  /** A zip code or phone number written only with digits is text to the
      `string` rule: it is accepted. */
  lemma DigitOnlyFieldsAccepted(req: Request)
    requires Input(req, "zip_code") == Text("12345") && Input(req, "phone") == Text("08123456789")
    ensures "zip_code" !in ShippingErrors(req) && "phone" !in ShippingErrors(req)
  {
    assert !Trimmable("12345"[0]) && !Trimmable("08123456789"[0]);
  }

  /** The fields of `$request->validate([...])` that break their rule. */
  function ShippingErrors(req: Request): (errs: set<string>)
    ensures errs <= ShippingFields
    ensures "first_name" in errs <==> !RequiredText(Input(req, "first_name"), 255)
    ensures "last_name" in errs <==> !RequiredText(Input(req, "last_name"), 255)
    ensures "email" in errs <==> !RequiredEmail(Input(req, "email"), 255)
    ensures "phone" in errs <==> !RequiredText(Input(req, "phone"), 20)
    ensures "address" in errs <==> !RequiredText(Input(req, "address"), 255)
    ensures "city" in errs <==> !RequiredText(Input(req, "city"), 255)
    ensures "state" in errs <==> !RequiredText(Input(req, "state"), 255)
    ensures "zip_code" in errs <==> !RequiredText(Input(req, "zip_code"), 10)
  {
    ContactErrors(req) + AddressErrors(req)
  }

  /** A request without all the shipping fields is refused, whatever else it
      holds. */
  lemma MissingFieldRefused(req: Request, f: string)
    requires f in ShippingFields && f !in req
    ensures f in ShippingErrors(req)
  {
  }

  // ---------------------------------------------------------------------
  // store: what a committed order holds

  /** The card fields the form sends that are never stored. */
  const PaymentKeys: set<string> := {"card_holder", "card_number", "expiry_date", "cvv"}

  /** `$request->except([...payment keys])`: every submitted field but the
      card fields, with its value. */
  function StoredAddress(req: Request): (a: Request)
    ensures forall k :: k in a ==> k in req && k !in PaymentKeys && a[k] == req[k]
    ensures forall k :: k in req && k !in PaymentKeys ==> k in a
  {
    map k | k in req && k !in PaymentKeys :: req[k]
  }

  /** The order `Order::create` inserts: the caller's, pending, with the
      subtotal plus ten percent tax as its total and no payment details. */
  function PlacedOrder(id: int, user: int, lines: seq<Line>, req: Request, now: int): (o: Order)
    ensures o.id == id && o.userId == user && o.status == PendingStatus && o.createdAt == now
    ensures o.totalPrice == Summarize(lines).total
    ensures o.shippingAddress == StoredAddress(req) && o.paymentDetails.None?
  {
    Order(id, user, Sum(lines, Amount) * 1.10, PendingStatus, StoredAddress(req), None, now)
  }

  /** No card field is ever stored with an order. */
  lemma PaymentNeverStored(id: int, user: int, lines: seq<Line>, req: Request, now: int, k: string)
    requires k in PaymentKeys
    ensures k !in PlacedOrder(id, user, lines, req, now).shippingAddress
  {
  }

  /** The items the loop creates: one per cart line, in cart order, with
      consecutive ids, the line's product and quantity and the product's
      price at this moment. */
  function OrderItemsFor(lines: seq<Line>, orderId: int, firstId: int): (r: seq<OrderItem>)
    requires Loaded(lines)
    ensures |r| == |lines|
    ensures forall k :: 0 <= k < |lines| ==>
              r[k] == OrderItem(firstId + k, orderId, lines[k].row.productId, lines[k].row.quantity, lines[k].product.value.price)
  {
    seq(|lines|, k requires 0 <= k < |lines| =>
      OrderItem(firstId + k, orderId, lines[k].row.productId, lines[k].row.quantity, lines[k].product.value.price))
  }

  /** `quantity * price` of an order item. */
  function ItemAmount(i: OrderItem): real { i.quantity as real * i.price }

  /** The items of a placed order add up to the subtotal it was charged for. */
  lemma {:induction false} ItemsAccountForSubtotal(lines: seq<Line>, orderId: int, firstId: int)
    requires Loaded(lines)
    ensures Sum(OrderItemsFor(lines, orderId, firstId), ItemAmount) == Summarize(lines).subtotal
  {
    if lines != [] {
      var r := OrderItemsFor(lines, orderId, firstId);
      assert r[1..] == OrderItemsFor(lines[1..], orderId, firstId + 1);
      ItemsAccountForSubtotal(lines[1..], orderId, firstId + 1);
      assert ItemAmount(r[0]) == Amount(lines[0]);
    }
  }

  /** The order's total is its items' total plus ten percent. */
  lemma TotalIsItemsPlusTax(id: int, user: int, lines: seq<Line>, req: Request, now: int, firstId: int)
    requires Loaded(lines)
    ensures PlacedOrder(id, user, lines, req, now).totalPrice == Sum(OrderItemsFor(lines, id, firstId), ItemAmount) * 1.10
  {
    ItemsAccountForSubtotal(lines, id, firstId);
  }

  /** The worked example: 1 x 20.00 and 2 x 30.00 make an order of 88.00. */
  lemma OrderExample(p: Product, q: Product, req: Request)
    requires p.price == 20.00 && q.price == 30.00
    ensures PlacedOrder(1, 7, [Line(CartRow(1, 7, p.id, 1), Some(p)), Line(CartRow(2, 7, q.id, 2), Some(q))], req, 0).totalPrice == 88.00
  {
    var lines := [Line(CartRow(1, 7, p.id, 1), Some(p)), Line(CartRow(2, 7, q.id, 2), Some(q))];
    assert lines[1..][1..] == [];
    assert Amount(lines[0]) == 20.00 && Amount(lines[1]) == 60.00;
    assert Sum(lines[1..], Amount) == 60.00;
  }

  // ---------------------------------------------------------------------
  // store: the transaction

  /** A write fails when `fault` names one of the steps that run: 0 is
      `Order::create`, 1 to n the item creates, n + 1 the cart delete. */
  predicate Throws(fault: Option<nat>, n: nat) {
    fault.Some? && fault.value <= n + 1
  }

  /** The `foreach` over the cart: one `$order->items()->create(...)` per
      line, in cart order. `fault` = Some(k + 1) makes the create of line k
      throw, leaving the items of lines 0 to k - 1 written. */
  method CreateItems(orders: OrderTable, orderId: int, lines: seq<Line>, fault: Option<nat>) returns (created: bool)
    requires orders.Valid() && orderId in OrderIds(orders.orders) && Loaded(lines)
    modifies orders
    ensures orders.Valid()
    ensures orders.orders == old(orders.orders) && orders.nextOrderId == old(orders.nextOrderId)
    ensures orders.nextItemId >= old(orders.nextItemId)
    ensures created <==> !(fault.Some? && 1 <= fault.value <= |lines|)
    ensures created ==> orders.items == old(orders.items) + OrderItemsFor(lines, orderId, old(orders.nextItemId))
  {
    var items := OrderItemsFor(lines, orderId, orders.nextItemId);
    var k := 0;
    while k < |lines|
      invariant 0 <= k <= |lines|
      invariant !(fault.Some? && 1 <= fault.value <= k)
      invariant orders.Valid() && orderId in OrderIds(orders.orders)
      invariant orders.orders == old(orders.orders) && orders.nextOrderId == old(orders.nextOrderId)
      invariant orders.items == old(orders.items) + items[..k]
      invariant orders.nextItemId == old(orders.nextItemId) + k
    {
      if fault == Some(k + 1) {
        return false;
      }
      var line := lines[k];
      var _ := orders.CreateItem(orderId, line.row.productId, line.row.quantity, line.product.value.price);
      assert items[..k + 1] == items[..k] + [items[k]];
      k := k + 1;
    }
    assert items[..k] == items;
    created := true;
  }

  /** The body of the `try` block for a cart whose every product exists:
      create the order, create its items, delete the caller's cart, commit.
      A throwing write rolls the rows back. */
  method Transaction(carts: CartTable, orders: OrderTable, lines: seq<Line>, user: int, req: Request, now: int, fault: Option<nat>)
    returns (committed: bool)
    requires carts.Valid() && orders.Valid() && Loaded(lines)
    modifies carts, orders
    ensures carts.Valid() && orders.Valid() && carts.nextId == old(carts.nextId)
    ensures committed <==> !Throws(fault, |lines|)
    ensures !committed ==>
              carts.rows == old(carts.rows) && orders.orders == old(orders.orders) && orders.items == old(orders.items)
    ensures committed ==>
              && orders.orders == old(orders.orders) + [PlacedOrder(old(orders.nextOrderId), user, lines, req, now)]
              && orders.items == old(orders.items) + OrderItemsFor(lines, old(orders.nextOrderId), old(orders.nextItemId))
              && carts.rows == ClearedRows(old(carts.rows), user)
  {
    // DB::beginTransaction(): the rows a rollback returns to.
    var savedOrders, savedItems := orders.orders, orders.items;
    if fault == Some(0) {
      return false;
    }
    var totalPrice := Sum(lines, Amount) * 1.10;
    var orderId := orders.Create(user, totalPrice, StoredAddress(req), now);
    var created := CreateItems(orders, orderId, lines, fault);
    if !created || fault == Some(|lines| + 1) {
      // DB::rollBack()
      CountersGrow(savedOrders, savedItems, old(orders.nextOrderId), old(orders.nextItemId), orders.nextOrderId, orders.nextItemId);
      orders.Restore(savedOrders, savedItems);
      return false;
    }
    var _ := carts.Clear(user);
    // DB::commit()
    committed := true;
  }

  /** CheckoutController::store. `fault` is the storage write that throws,
      if any; `now` is the clock. Either every write is committed or the
      tables keep their rows. The product table is only read. */
  method Store(carts: CartTable, orders: OrderTable, catalog: ProductTable, user: int, req: Request, now: int, fault: Option<nat>)
    returns (outcome: Outcome)
    requires carts.Valid() && orders.Valid()
    modifies carts, orders
    ensures carts.Valid() && orders.Valid() && carts.nextId == old(carts.nextId)
    ensures ShippingErrors(req) != {} ==> outcome == Invalid(ShippingErrors(req))
    ensures ShippingErrors(req) == {} && CartOf(old(carts.rows), user) == [] ==> outcome == EmptyCart
    ensures outcome == Done <==>
              && ShippingErrors(req) == {}
              && CartOf(old(carts.rows), user) != []
              && Loaded(Load(CartOf(old(carts.rows), user), catalog.rows))
              && !Throws(fault, |CartOf(old(carts.rows), user)|)
    ensures ShippingErrors(req) == {} && CartOf(old(carts.rows), user) != [] && outcome != Done ==> outcome == Failed
    ensures outcome != Done ==>
              carts.rows == old(carts.rows) && orders.orders == old(orders.orders) && orders.items == old(orders.items)
    ensures outcome == Done ==>
              var lines := Load(CartOf(old(carts.rows), user), catalog.rows);
              && orders.orders == old(orders.orders) + [PlacedOrder(old(orders.nextOrderId), user, lines, req, now)]
              && orders.items == old(orders.items) + OrderItemsFor(lines, old(orders.nextOrderId), old(orders.nextItemId))
              && carts.rows == ClearedRows(old(carts.rows), user)
  {
    var errs := ShippingErrors(req);
    if errs != {} {
      return Invalid(errs);
    }
    var lines := Load(CartOf(carts.rows, user), catalog.rows);
    if lines == [] {
      return EmptyCart;
    }
    if !Loaded(lines) {
      // Reading the price of a deleted product throws before any write.
      return Failed;
    }
    var committed := Transaction(carts, orders, lines, user, req, now, fault);
    outcome := if committed then Done else Failed;
  }
}
