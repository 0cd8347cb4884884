/** Orders and their items (the `orders` and `order_items` tables) and the
    order history page (OrderController). */
module Orders {

  import opened Base
  import opened Seqs
  import opened Catalog

  /** The status every new order starts in. */
  const PendingStatus: string := "pending"

  /** A row of `orders`. `shippingAddress` and `paymentDetails` are the JSON
      columns, cast to arrays. */
  datatype Order = Order(
    id: int,
    userId: int,
    totalPrice: real,
    status: string,
    shippingAddress: Request,
    paymentDetails: Option<Request>,
    createdAt: int)

  /** A row of `order_items`: `price` is the unit price copied from the
      product when the order was placed. */
  datatype OrderItem = OrderItem(id: int, orderId: int, productId: int, quantity: int, price: real)

  function OrderCreatedAt(o: Order): int { o.createdAt }

  /** The ids of a set of orders. */
  function OrderIds(orders: seq<Order>): (ids: set<int>)
    ensures forall o :: o in orders ==> o.id in ids
    ensures forall id :: id in ids ==> exists o :: o in orders && o.id == id
  {
    set o | o in orders :: o.id
  }

  predicate OrderIdsDiffer(a: Order, b: Order) { a.id != b.id }

  predicate ItemIdsDiffer(a: OrderItem, b: OrderItem) { a.id != b.id }

  /** What both tables satisfy together: unique positive ids below their
      auto-increment values, and every item belongs to an existing order. */
  predicate TablesInvariant(orders: seq<Order>, items: seq<OrderItem>, nextOrderId: int, nextItemId: int) {
    && nextOrderId >= 1 && nextItemId >= 1
    && Pairwise(orders, OrderIdsDiffer)
    && Pairwise(items, ItemIdsDiffer)
    && (forall o :: o in orders ==> 1 <= o.id < nextOrderId)
    && (forall i :: i in items ==> 1 <= i.id < nextItemId && i.orderId in OrderIds(orders))
  }

  /** Auto-increment values only grow; rows that were consistent with the
      old values stay consistent with larger ones. */
  lemma CountersGrow(orders: seq<Order>, items: seq<OrderItem>, a: int, b: int, a2: int, b2: int)
    requires TablesInvariant(orders, items, a, b) && a <= a2 && b <= b2
    ensures TablesInvariant(orders, items, a2, b2)
  {
  }

  /** The `orders` and `order_items` tables. */
  class OrderTable {
    var orders: seq<Order>
    var items: seq<OrderItem>
    var nextOrderId: int
    var nextItemId: int

    ghost predicate Valid()
      reads this
    {
      TablesInvariant(orders, items, nextOrderId, nextItemId)
    }

    constructor ()
      ensures Valid() && orders == [] && items == [] && nextOrderId == 1 && nextItemId == 1
    {
      orders := [];
      items := [];
      nextOrderId := 1;
      nextItemId := 1;
    }

    /** `Order::create([...])`: a new pending order with the next id and no
        payment details. */
    method Create(userId: int, totalPrice: real, address: Request, now: int) returns (id: int)
      requires Valid()
      modifies this
      ensures Valid()
      ensures id == old(nextOrderId) && nextOrderId == old(nextOrderId) + 1
      ensures orders == old(orders) + [Order(id, userId, totalPrice, PendingStatus, address, None, now)]
      ensures items == old(items) && nextItemId == old(nextItemId)
    {
      id := nextOrderId;
      var o := Order(id, userId, totalPrice, PendingStatus, address, None, now);
      assert Pairwise(orders + [o], OrderIdsDiffer) by {
        forall a, b | 0 <= a < b < |orders + [o]| ensures OrderIdsDiffer((orders + [o])[a], (orders + [o])[b]) {
          if b == |orders| {
            assert (orders + [o])[a] == orders[a] && orders[a] in orders;
          } else {
            assert OrderIdsDiffer(orders[a], orders[b]);
          }
        }
      }
      assert OrderIds(orders) <= OrderIds(orders + [o]);
      orders := orders + [o];
      nextOrderId := nextOrderId + 1;
    }

    /** `$order->items()->create([...])`: an item of an existing order, with
        the next item id. */
    method CreateItem(orderId: int, productId: int, quantity: int, price: real) returns (id: int)
      requires Valid() && orderId in OrderIds(orders)
      modifies this
      ensures Valid()
      ensures id == old(nextItemId) && nextItemId == old(nextItemId) + 1
      ensures items == old(items) + [OrderItem(id, orderId, productId, quantity, price)]
      ensures orders == old(orders) && nextOrderId == old(nextOrderId)
    {
      id := nextItemId;
      var i := OrderItem(id, orderId, productId, quantity, price);
      assert Pairwise(items + [i], ItemIdsDiffer) by {
        forall a, b | 0 <= a < b < |items + [i]| ensures ItemIdsDiffer((items + [i])[a], (items + [i])[b]) {
          if b == |items| {
            assert (items + [i])[a] == items[a] && items[a] in items;
          } else {
            assert ItemIdsDiffer(items[a], items[b]);
          }
        }
      }
      items := items + [i];
      nextItemId := nextItemId + 1;
    }

    /** `DB::rollBack()`: the rows return to a snapshot taken at
        `DB::beginTransaction()`; the auto-increment values are not given
        back. */
    method Restore(savedOrders: seq<Order>, savedItems: seq<OrderItem>)
      requires TablesInvariant(savedOrders, savedItems, nextOrderId, nextItemId)
      modifies this
      ensures Valid()
      ensures orders == savedOrders && items == savedItems
      ensures nextOrderId == old(nextOrderId) && nextItemId == old(nextItemId)
    {
      orders := savedOrders;
      items := savedItems;
    }
  }

  // ---------------------------------------------------------------------
  // The order history page

  /** Orders per history page. */
  const OrdersPerPage: nat := 10

  /** An item with its eager-loaded product (`None` once the product row is
      gone). */
  datatype ItemView = ItemView(item: OrderItem, product: Option<Product>)

  /** An order with its items (`with('items.product')`). */
  datatype OrderView = OrderView(order: Order, items: seq<ItemView>)

  /** The items of one order, in table order. */
  function ItemsOf(items: seq<OrderItem>, orderId: int): (r: seq<OrderItem>)
    ensures forall i :: i in r <==> i in items && i.orderId == orderId
  {
    Filter(items, (i: OrderItem) => i.orderId == orderId)
  }

  /** An order with its items, each with its product. */
  function ViewOf(o: Order, items: seq<OrderItem>, ps: seq<Product>): (v: OrderView)
    ensures v.order == o && |v.items| == |ItemsOf(items, o.id)|
    ensures forall k :: 0 <= k < |v.items| ==>
              v.items[k].item == ItemsOf(items, o.id)[k] && v.items[k].product == FindProduct(ps, ItemsOf(items, o.id)[k].productId)
  {
    var own := ItemsOf(items, o.id);
    OrderView(o, seq(|own|, k requires 0 <= k < |own| => ItemView(own[k], FindProduct(ps, own[k].productId))))
  }

  /** All of the caller's orders, newest first. */
  function OwnOrders(orders: seq<Order>, user: int): (r: seq<Order>)
    ensures SortedDesc(r, OrderCreatedAt)
    ensures multiset(r) == multiset(Filter(orders, (o: Order) => o.userId == user))
  {
    SortDesc(Filter(orders, (o: Order) => o.userId == user), OrderCreatedAt)
  }

  /** The caller's orders are the caller's. */
  lemma OwnOrdersAreOwn(orders: seq<Order>, user: int)
    ensures forall o :: o in OwnOrders(orders, user) ==> o in orders && o.userId == user
  {
    var own := OwnOrders(orders, user);
    forall o | o in own ensures o in orders && o.userId == user {
      assert o in multiset(own);
      assert o in Filter(orders, (o: Order) => o.userId == user);
    }
  }

  /** The caller's orders on one page, newest first. */
  function PageOfOrders(orders: seq<Order>, user: int, page: Option<int>): (r: seq<Order>)
    ensures |r| <= OrdersPerPage
    ensures forall k :: 0 <= k < |r| ==>
              var i := PageStart(CurrentPage(page), OrdersPerPage) + k;
              i < |OwnOrders(orders, user)| && r[k] == OwnOrders(orders, user)[i]
    ensures var lo := PageStart(CurrentPage(page), OrdersPerPage); var n := |OwnOrders(orders, user)|;
            |r| == if lo >= n then 0 else if lo + OrdersPerPage <= n then OrdersPerPage else n - lo
    ensures forall o :: o in r ==> o in orders && o.userId == user
    ensures SortedDesc(r, OrderCreatedAt)
  {
    var own := OwnOrders(orders, user);
    OwnOrdersAreOwn(orders, user);
    PageWithin(own, CurrentPage(page), OrdersPerPage);
    PageSorted(own, CurrentPage(page), OrdersPerPage, OrderCreatedAt);
    PageOf(own, CurrentPage(page), OrdersPerPage)
  }

  /** OrderController::index: one page of the caller's orders, newest first,
      each with its items and their products. */
  function History(orders: seq<Order>, items: seq<OrderItem>, ps: seq<Product>, user: int, page: Option<int>): (r: seq<OrderView>)
    ensures |r| == |PageOfOrders(orders, user, page)| <= OrdersPerPage
    ensures forall k :: 0 <= k < |r| ==> r[k] == ViewOf(PageOfOrders(orders, user, page)[k], items, ps)
    ensures forall v :: v in r ==> v.order in orders && v.order.userId == user
    ensures forall i, j :: 0 <= i < j < |r| ==> r[i].order.createdAt >= r[j].order.createdAt
    ensures forall v :: v in r ==> v == ViewOf(v.order, items, ps)
  {
    var shown := PageOfOrders(orders, user, page);
    var r := Map(shown, (o: Order) => ViewOf(o, items, ps));
    assert forall k :: 0 <= k < |r| ==> r[k].order == shown[k];
    r
  }

  /** Each of the caller's orders is on some page of their history, and
      another user's order is on none. */
  lemma {:induction false} OwnOrderListed(orders: seq<Order>, items: seq<OrderItem>, ps: seq<Product>, user: int, o: Order)
    ensures (o in orders && o.userId == user) <==>
            exists n, v :: n >= 1 && v in History(orders, items, ps, user, Some(n)) && v.order == o
  {
    if o in orders && o.userId == user {
      var own := OwnOrders(orders, user);
      assert o in multiset(own);
      var k :| 0 <= k < |own| && own[k] == o;
      PageHolds(own, OrdersPerPage, k);
      var n := k / OrdersPerPage + 1;
      var r := History(orders, items, ps, user, Some(n));
      assert r[k % OrdersPerPage].order == o;
    }
  }

  /** Editing the product table afterwards changes only the products shown
      beside the items: the items themselves, with their quantities and
      prices as placed, stay as they were. */
  lemma PricesAreFrozen(orders: seq<Order>, items: seq<OrderItem>, ps: seq<Product>, ps2: seq<Product>, user: int, page: Option<int>)
    ensures var a, b := History(orders, items, ps, user, page), History(orders, items, ps2, user, page);
            && |a| == |b|
            && forall k :: 0 <= k < |a| ==>
                 (&& a[k].order == b[k].order && |a[k].items| == |b[k].items|
                  && forall j :: 0 <= j < |a[k].items| ==> a[k].items[j].item == b[k].items[j].item)
  {
  }
}
