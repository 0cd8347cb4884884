/** The shopping cart (CartController): the `carts` table, the cart page's
    order summary, and adding, re-counting, removing and clearing rows. The
    caller is always an explicit user id. */
module Cart {

  import opened Base
  import opened Seqs
  import opened Catalog

  /** A row of the `carts` table. */
  datatype CartRow = CartRow(id: int, userId: int, productId: int, quantity: int)

  /** A cart row with its eager-loaded product; `None` when the product row
      no longer exists. */
  datatype Line = Line(row: CartRow, product: Option<Product>)

  // ---------------------------------------------------------------------
  // Table invariant

  /** Two rows for the same user and product. */
  predicate SameKey(a: CartRow, b: CartRow) {
    a.userId == b.userId && a.productId == b.productId
  }

  /** Two rows may both be in the table: different ids and different
      (user, product) pairs. */
  predicate Distinguished(a: CartRow, b: CartRow) {
    a.id != b.id && !SameKey(a, b)
  }

  /** What every state of the table satisfies: unique positive ids, below
      the next auto-increment value; at most one row per (user, product);
      every quantity at least 1. */
  predicate TableInvariant(rows: seq<CartRow>, nextId: int) {
    && nextId >= 1
    && Pairwise(rows, Distinguished)
    && forall c :: c in rows ==> 1 <= c.id < nextId && c.quantity >= 1
  }

  // ---------------------------------------------------------------------
  // Reading the cart

  /** `Cart::where('user_id', user)->get()`: the user's rows in table order. */
  function CartOf(rows: seq<CartRow>, user: int): (r: seq<CartRow>)
    ensures forall c :: c in r <==> c in rows && c.userId == user
  {
    Filter(rows, (c: CartRow) => c.userId == user)
  }

  /** `->with('product')`: each row with its product looked up by id. */
  function Load(rows: seq<CartRow>, ps: seq<Product>): (lines: seq<Line>)
    ensures |lines| == |rows|
    ensures forall k :: 0 <= k < |rows| ==> lines[k].row == rows[k] && lines[k].product == FindProduct(ps, rows[k].productId)
  {
    seq(|rows|, k requires 0 <= k < |rows| => Line(rows[k], FindProduct(ps, rows[k].productId)))
  }

  /** No line lost its product. */
  predicate Loaded(lines: seq<Line>) {
    forall k :: 0 <= k < |lines| ==> lines[k].product.Some?
  }

  /** `quantity * product->price` of one line. */
  function Amount(l: Line): real {
    if l.product.Some? then l.row.quantity as real * l.product.value.price else 0.0
  }

  /** The tax rate of every summary and every order. */
  const TaxRate: real := 0.10

  datatype Summary = Summary(subtotal: real, tax: real, total: real)

  /** The order summary of the cart and checkout pages. */
  function Summarize(lines: seq<Line>): (s: Summary)
    ensures s.subtotal == Sum(lines, Amount)
    ensures s.tax == s.subtotal * TaxRate && s.total == s.subtotal + s.tax
    ensures s.total == s.subtotal * 1.10
  {
    var subtotal := Sum(lines, Amount);
    Summary(subtotal, subtotal * TaxRate, subtotal + subtotal * TaxRate)
  }

  /** A cart of non-negative amounts has a non-negative subtotal, a tax no
      larger than it and a total no smaller. */
  lemma SummaryNonNegative(lines: seq<Line>)
    requires forall l :: l in lines ==> Amount(l) >= 0.0
    ensures var s := Summarize(lines); 0.0 <= s.tax <= s.subtotal <= s.total
  {
    SumNonNegative(lines, Amount);
  }

  /** The summary of two carts put together is the sum of their summaries. */
  lemma SummaryAdds(a: seq<Line>, b: seq<Line>)
    ensures Summarize(a + b).subtotal == Summarize(a).subtotal + Summarize(b).subtotal
    ensures Summarize(a + b).total == Summarize(a).total + Summarize(b).total
  {
    SumAppend(a, b, Amount);
  }

  /** The worked example: 2 x 10.00 and 1 x 5.50 give 25.50, 2.55 and 28.05. */
  lemma SummaryExample(p: Product, q: Product)
    requires p.price == 10.00 && q.price == 5.50
    ensures var s := Summarize([Line(CartRow(1, 7, p.id, 2), Some(p)), Line(CartRow(2, 7, q.id, 1), Some(q))]);
            s.subtotal == 25.50 && s.tax == 2.55 && s.total == 28.05
  {
    var lines := [Line(CartRow(1, 7, p.id, 2), Some(p)), Line(CartRow(2, 7, q.id, 1), Some(q))];
    assert lines[1..][1..] == [];
    assert Amount(lines[0]) == 20.00 && Amount(lines[1]) == 5.50;
    assert Sum(lines[1..], Amount) == 5.50;
    assert Sum(lines, Amount) == 25.50;
  }

  datatype CartPage = CartPage(items: seq<Line>, summary: Summary)

  /** CartController::index. Reading `price` of a missing product throws:
      the page fails with a server error. */
  function Index(rows: seq<CartRow>, ps: seq<Product>, user: int): (r: Response<CartPage>)
    ensures r.Shown? <==> Loaded(Load(CartOf(rows, user), ps))
    ensures r.Refused? ==> r.why == ServerError
    ensures r.Shown? ==> r.view.items == Load(CartOf(rows, user), ps)
    ensures r.Shown? ==> forall l :: l in r.view.items ==> l.row in rows && l.row.userId == user
    ensures r.Shown? ==> r.view.summary == Summarize(r.view.items)
  {
    var lines := Load(CartOf(rows, user), ps);
    if Loaded(lines) then Shown(CartPage(lines, Summarize(lines))) else Refused(ServerError)
  }

  // ---------------------------------------------------------------------
  // Writing the cart: the table after each action

  /** `firstOrNew(['user_id' => user, 'product_id' => pid])`: the position of
      the user's row for that product, if there is one. */
  function FindRow(rows: seq<CartRow>, user: int, pid: int): (r: Option<nat>)
    ensures r.Some? ==> r.value < |rows| && rows[r.value].userId == user && rows[r.value].productId == pid
    ensures r.None? <==> forall c :: c in rows ==> !(c.userId == user && c.productId == pid)
  {
    if rows == [] then None
    else if rows[0].userId == user && rows[0].productId == pid then Some(0)
    else var r := FindRow(rows[1..], user, pid); if r.Some? then Some(r.value + 1) else None
  }

  /** The position of the row with id `id` (route-model binding). */
  function FindId(rows: seq<CartRow>, id: int): (r: Option<nat>)
    ensures r.Some? ==> r.value < |rows| && rows[r.value].id == id
    ensures r.None? <==> forall c :: c in rows ==> c.id != id
  {
    if rows == [] then None
    else if rows[0].id == id then Some(0)
    else var r := FindId(rows[1..], id); if r.Some? then Some(r.value + 1) else None
  }

  /** The `product_id` rule of CartController::store:
      `required|exists:products,id`: some product has the sent id. */
  predicate ProductExists(ps: seq<Product>, v: Value)
    ensures ProductExists(ps, v) <==>
              Required(v) && IsNumeric(v) && exists p :: p in ps && p.id as real == NumericValue(v)
  {
    Required(v) && IsNumeric(v) && NumericValue(v).Floor as real == NumericValue(v)
    && FindProduct(ps, NumericValue(v).Floor).Some?
  }

  /** The table after adding `pid` for `user`: the existing row's quantity
      goes up by one, or a new row with quantity 1 is appended. */
  function AddedRows(rows: seq<CartRow>, nextId: int, user: int, pid: int): (r: seq<CartRow>)
    ensures |r| == |rows| + (if FindRow(rows, user, pid).Some? then 0 else 1)
    ensures forall k :: 0 <= k < |rows| && Some(k) != FindRow(rows, user, pid) ==> r[k] == rows[k]
    ensures forall k :: 0 <= k < |rows| && Some(k) == FindRow(rows, user, pid) ==>
              r[k] == rows[k].(quantity := rows[k].quantity + 1)
    ensures |r| > |rows| ==> r[|rows|] == CartRow(nextId, user, pid, 1)
    ensures exists k :: 0 <= k < |r| && r[k].userId == user && r[k].productId == pid
  {
    match FindRow(rows, user, pid)
    case Some(i) => rows[i := rows[i].(quantity := rows[i].quantity + 1)]
    case None => rows + [CartRow(nextId, user, pid, 1)]
  }

  /** The auto-increment value after adding. */
  function NextIdAfterAdd(rows: seq<CartRow>, nextId: int, user: int, pid: int): (n: int)
    ensures n == nextId + |AddedRows(rows, nextId, user, pid)| - |rows|
  {
    if FindRow(rows, user, pid).Some? then nextId else nextId + 1
  }

  /** Units of `pid` in the cart of `user`, over every matching row. */
  function QuantityOf(rows: seq<CartRow>, user: int, pid: int): int {
    if rows == [] then 0
    else (if rows[0].userId == user && rows[0].productId == pid then rows[0].quantity else 0)
         + QuantityOf(rows[1..], user, pid)
  }

  /** Adding keeps the table invariant: in particular it never makes a second
      row for the same user and product. */
  lemma AddKeepsInvariant(rows: seq<CartRow>, nextId: int, user: int, pid: int)
    requires TableInvariant(rows, nextId)
    ensures TableInvariant(AddedRows(rows, nextId, user, pid), NextIdAfterAdd(rows, nextId, user, pid))
  {
    var r := AddedRows(rows, nextId, user, pid);
    match FindRow(rows, user, pid)
    case Some(i) =>
      forall a, b | 0 <= a < b < |r| ensures Distinguished(r[a], r[b]) {
        assert Distinguished(rows[a], rows[b]);
      }
      forall c | c in r ensures 1 <= c.id < nextId && c.quantity >= 1 {
        var k :| 0 <= k < |r| && r[k] == c;
        assert rows[k] in rows;
      }
    case None =>
      forall a, b | 0 <= a < b < |r| ensures Distinguished(r[a], r[b]) {
        if b == |rows| {
          assert r[a] == rows[a] && rows[a] in rows;
        } else {
          assert Distinguished(rows[a], rows[b]);
        }
      }
      assert r == rows + [CartRow(nextId, user, pid, 1)];
      forall c | c in r ensures 1 <= c.id < nextId + 1 && c.quantity >= 1 {
        if c != CartRow(nextId, user, pid, 1) {
          assert c in rows;
        }
      }
  }

  /** Quantity over a table with one more row. */
  lemma {:induction false} QuantityAppend(rows: seq<CartRow>, c: CartRow, user: int, pid: int)
    ensures QuantityOf(rows + [c], user, pid)
            == QuantityOf(rows, user, pid) + (if c.userId == user && c.productId == pid then c.quantity else 0)
  {
    if rows == [] {
      assert [c][1..] == [];
    } else {
      assert (rows + [c])[1..] == rows[1..] + [c];
      QuantityAppend(rows[1..], c, user, pid);
    }
  }

  /** Quantity over a table where row `i` was bumped by one. */
  lemma {:induction false} QuantityBump(rows: seq<CartRow>, i: nat, user: int, pid: int)
    requires i < |rows|
    ensures QuantityOf(rows[i := rows[i].(quantity := rows[i].quantity + 1)], user, pid)
            == QuantityOf(rows, user, pid) + (if rows[i].userId == user && rows[i].productId == pid then 1 else 0)
  {
    var r := rows[i := rows[i].(quantity := rows[i].quantity + 1)];
    if i == 0 {
      assert r[1..] == rows[1..];
    } else {
      assert r[1..] == rows[1..][i - 1 := rows[i].(quantity := rows[i].quantity + 1)];
      QuantityBump(rows[1..], i - 1, user, pid);
    }
  }

  /** Adding raises the caller's quantity of that product by exactly one and
      leaves every other (user, product) pair alone. */
  lemma AddIncrements(rows: seq<CartRow>, nextId: int, user: int, pid: int, otherUser: int, otherPid: int)
    ensures QuantityOf(AddedRows(rows, nextId, user, pid), user, pid) == QuantityOf(rows, user, pid) + 1
    ensures (otherUser != user || otherPid != pid) ==>
              QuantityOf(AddedRows(rows, nextId, user, pid), otherUser, otherPid) == QuantityOf(rows, otherUser, otherPid)
  {
    match FindRow(rows, user, pid)
    case Some(i) =>
      QuantityBump(rows, i, user, pid);
      QuantityBump(rows, i, otherUser, otherPid);
    case None =>
      QuantityAppend(rows, CartRow(nextId, user, pid, 1), user, pid);
      QuantityAppend(rows, CartRow(nextId, user, pid, 1), otherUser, otherPid);
  }

  /** With at most one row per pair, the quantity of a pair is that row's,
      and zero when there is none: on a first add the new row holds 1. */
  lemma {:induction false} QuantityOfUniqueRow(rows: seq<CartRow>, user: int, pid: int)
    requires Pairwise(rows, Distinguished)
    ensures FindRow(rows, user, pid).None? ==> QuantityOf(rows, user, pid) == 0
    ensures FindRow(rows, user, pid).Some? ==> QuantityOf(rows, user, pid) == rows[FindRow(rows, user, pid).value].quantity
  {
    if rows != [] {
      assert Pairwise(rows[1..], Distinguished) by {
        forall a, b | 0 <= a < b < |rows[1..]| ensures Distinguished(rows[1..][a], rows[1..][b]) {
          assert rows[1..][a] == rows[a + 1] && rows[1..][b] == rows[b + 1];
        }
      }
      QuantityOfUniqueRow(rows[1..], user, pid);
      if rows[0].userId == user && rows[0].productId == pid {
        assert FindRow(rows[1..], user, pid).None? by {
          forall c | c in rows[1..] ensures !(c.userId == user && c.productId == pid) {
            var k :| 0 <= k < |rows[1..]| && rows[1..][k] == c;
            assert Distinguished(rows[0], rows[k + 1]);
          }
        }
      }
    }
  }

  /** The table after setting the quantity of row `i`. */
  function UpdatedRows(rows: seq<CartRow>, i: nat, quantity: int): (r: seq<CartRow>)
    requires i < |rows|
    ensures |r| == |rows| && r[i].quantity == quantity
    ensures r[i].id == rows[i].id && r[i].userId == rows[i].userId && r[i].productId == rows[i].productId
    ensures forall k :: 0 <= k < |rows| && k != i ==> r[k] == rows[k]
  {
    rows[i := rows[i].(quantity := quantity)]
  }

  /** The table after deleting the row with id `id`. */
  function RemovedRows(rows: seq<CartRow>, id: int): (r: seq<CartRow>)
    ensures forall c :: c in r <==> c in rows && c.id != id
  {
    Filter(rows, (c: CartRow) => c.id != id)
  }

  /** With unique ids, deleting an existing id removes exactly one row. */
  lemma {:induction false} RemoveExactlyOne(rows: seq<CartRow>, id: int)
    requires Pairwise(rows, Distinguished)
    requires exists c :: c in rows && c.id == id
    ensures |RemovedRows(rows, id)| == |rows| - 1
  {
    var keep := (c: CartRow) => c.id != id;
    assert Pairwise(rows[1..], Distinguished) by {
      forall a, b | 0 <= a < b < |rows[1..]| ensures Distinguished(rows[1..][a], rows[1..][b]) {
        assert rows[1..][a] == rows[a + 1] && rows[1..][b] == rows[b + 1];
      }
    }
    if rows[0].id == id {
      assert Filter(rows[1..], keep) == rows[1..] by {
        forall c | c in rows[1..] ensures keep(c) {
          var k :| 0 <= k < |rows[1..]| && rows[1..][k] == c;
          assert Distinguished(rows[0], rows[k + 1]);
        }
        FilterAll(rows[1..], keep);
      }
    } else {
      var c :| c in rows && c.id == id;
      assert c in rows[1..];
      RemoveExactlyOne(rows[1..], id);
    }
  }

  /** The table after `Cart::where('user_id', user)->delete()`. */
  function ClearedRows(rows: seq<CartRow>, user: int): (r: seq<CartRow>)
    ensures forall c :: c in r <==> c in rows && c.userId != user
  {
    Filter(rows, (c: CartRow) => c.userId != user)
  }

  /** Clearing empties the caller's cart and leaves every other user's cart
      exactly as it was. */
  lemma ClearOnlyCaller(rows: seq<CartRow>, user: int, other: int)
    ensures CartOf(ClearedRows(rows, user), user) == []
    ensures other != user ==> CartOf(ClearedRows(rows, user), other) == CartOf(rows, other)
  {
    FilterNone(ClearedRows(rows, user), (c: CartRow) => c.userId == user);
    if other != user {
      FilterTwice(rows, (c: CartRow) => c.userId != user, (c: CartRow) => c.userId == other);
    }
  }

  // ---------------------------------------------------------------------
  // The table

  /** The `carts` table. */
  class CartTable {
    var rows: seq<CartRow>
    var nextId: int

    ghost predicate Valid()
      reads this
    {
      TableInvariant(rows, nextId)
    }

    constructor ()
      ensures Valid() && rows == [] && nextId == 1
    {
      rows := [];
      nextId := 1;
    }

    /** CartController::store: validate `product_id`, then find the caller's
        row for it or start a new one, and add one unit. */
    method Add(ps: seq<Product>, user: int, productId: Value) returns (outcome: Outcome)
      requires Valid()
      modifies this
      ensures Valid()
      ensures outcome == Done <==> ProductExists(ps, productId)
      ensures outcome != Done ==> outcome == Invalid({"product_id"}) && rows == old(rows) && nextId == old(nextId)
      ensures outcome == Done ==>
                var pid := NumericValue(productId).Floor;
                rows == AddedRows(old(rows), old(nextId), user, pid) &&
                nextId == NextIdAfterAdd(old(rows), old(nextId), user, pid)
    {
      if !ProductExists(ps, productId) {
        return Invalid({"product_id"});
      }
      var pid := NumericValue(productId).Floor;
      AddKeepsInvariant(rows, nextId, user, pid);
      var found := FindRow(rows, user, pid);
      if found.Some? {
        var item := rows[found.value];
        rows := rows[found.value := item.(quantity := item.quantity + 1)];
      } else {
        rows := rows + [CartRow(nextId, user, pid, 1)];
        nextId := nextId + 1;
      }
      outcome := Done;
    }

    /** CartController::update: the owner check comes first, then the
        `required|integer|min:1` rule, then the write. */
    method Update(user: int, cartId: int, quantity: Value) returns (outcome: Outcome)
      requires Valid()
      modifies this
      ensures Valid() && nextId == old(nextId)
      ensures FindId(old(rows), cartId).None? ==> outcome == NotFound
      ensures FindId(old(rows), cartId).Some? && old(rows)[FindId(old(rows), cartId).value].userId != user
              ==> outcome == Forbidden
      ensures (FindId(old(rows), cartId).Some? && old(rows)[FindId(old(rows), cartId).value].userId == user
               && !RequiredInteger(quantity, 1)) ==> outcome == Invalid({"quantity"})
      ensures outcome == Done <==>
                FindId(old(rows), cartId).Some? && old(rows)[FindId(old(rows), cartId).value].userId == user
                && RequiredInteger(quantity, 1)
      ensures outcome != Done ==> rows == old(rows)
      ensures outcome == Done ==> rows == UpdatedRows(old(rows), FindId(old(rows), cartId).value, IntegerValue(quantity))
    {
      var i := FindId(rows, cartId);
      if i.None? {
        return NotFound;
      }
      if rows[i.value].userId != user {
        return Forbidden;
      }
      if !RequiredInteger(quantity, 1) {
        return Invalid({"quantity"});
      }
      var r := UpdatedRows(rows, i.value, IntegerValue(quantity));
      assert Pairwise(r, Distinguished) by {
        forall a, b | 0 <= a < b < |r| ensures Distinguished(r[a], r[b]) {
          assert Distinguished(rows[a], rows[b]);
        }
      }
      assert forall c :: c in r ==> 1 <= c.id < nextId && c.quantity >= 1 by {
        forall c | c in r ensures 1 <= c.id < nextId && c.quantity >= 1 {
          var k :| 0 <= k < |r| && r[k] == c;
          assert rows[k] in rows;
        }
      }
      rows := r;
      outcome := Done;
    }

    /** CartController::destroy: only the owner may delete the row. */
    method Destroy(user: int, cartId: int) returns (outcome: Outcome)
      requires Valid()
      modifies this
      ensures Valid() && nextId == old(nextId)
      ensures FindId(old(rows), cartId).None? ==> outcome == NotFound
      ensures FindId(old(rows), cartId).Some? && old(rows)[FindId(old(rows), cartId).value].userId != user
              ==> outcome == Forbidden
      ensures outcome == Done <==>
                FindId(old(rows), cartId).Some? && old(rows)[FindId(old(rows), cartId).value].userId == user
      ensures outcome != Done ==> rows == old(rows)
      ensures outcome == Done ==> rows == RemovedRows(old(rows), cartId) && |rows| == |old(rows)| - 1
    {
      var i := FindId(rows, cartId);
      if i.None? {
        return NotFound;
      }
      if rows[i.value].userId != user {
        return Forbidden;
      }
      assert rows[i.value] in rows;
      RemoveExactlyOne(rows, cartId);
      FilterPairwise(rows, (c: CartRow) => c.id != cartId, Distinguished);
      rows := RemovedRows(rows, cartId);
      outcome := Done;
    }

    /** CartController::clear: delete every row of the caller; an empty cart
        is not an error. */
    method Clear(user: int) returns (outcome: Outcome)
      requires Valid()
      modifies this
      ensures Valid() && nextId == old(nextId)
      ensures outcome == Done
      ensures rows == ClearedRows(old(rows), user)
    {
      FilterPairwise(rows, (c: CartRow) => c.userId != user, Distinguished);
      rows := ClearedRows(rows, user);
      outcome := Done;
    }
  }
}
