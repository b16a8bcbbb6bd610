/**
 * The checkout of `POST /api/orders` (server.js:48-80) as a function from
 * the database before the request to the response and the database after it.
 *
 * All reads and writes of the transaction act on a copy of the tables; the
 * copy replaces the tables on COMMIT and is dropped on ROLLBACK. The id
 * counters are outside the transaction: an insert that draws an id and then
 * fails, or is rolled back, leaves that id used.
 */
module Checkout {
  import opened Wrappers
  import opened Tables
  import opened Cart
  import History

  /** Why a checkout that passed validation was rolled back. */
  datatype Failure =
    | Unavailable(productId: int)   // server.js:62: no such product, or quantity above stock
    | UnknownUser                   // server.js:30,65: user_id does not fit INTEGER or violates the users (id) foreign key
    | ItemRejected(why: Rejection)  // server.js:31,68-69: an order-item insert or stock update failed

  datatype Outcome =
    | Created(orderId: int)   // 201 with the new order id
    | InvalidOrder            // 400: the request fails validation
    | Failed(cause: Failure)  // 500 after ROLLBACK
  {
    function Status(): int {
      match this
      case Created(_) => 201
      case InvalidOrder => 400
      case Failed(_) => 500
    }
  }

  /** JavaScript's `!userId` for a numeric field: absent, null or 0. */
  predicate Falsy(userId: Option<int>) {
    userId.None? || userId.value == 0
  }

  /**
   * The validation of server.js:51: a truthy user id and a non-empty array
   * of items (`None` stands for an absent field or one that is not an array).
   */
  predicate ValidRequest(userId: Option<int>, items: Option<seq<CartItem>>) {
    !Falsy(userId) && items.Some? && |items.value| > 0
  }

  /** The checkout succeeds on this input: every step of the transaction goes through. */
  predicate Succeeds(db: Db, userId: Option<int>, items: Option<seq<CartItem>>) {
    && ValidRequest(userId, items)
    && FirstUnavailable(db.products, items.value) == |items.value|
    && IsInt32(userId.value)
    && userId.value in UserIds(db.users)
    && AllPass(db.products, items.value)
  }

  /** The order row a successful checkout inserts. */
  function NewOrder(db: Db, userId: int, cart: seq<CartItem>, now: int): Order
    requires AllKnown(db.products, cart) && AllQuantified(cart)
  {
    Order(db.orderSeq, userId, now, Total(db.products, cart))
  }

  /**
   * The response and the database after one `POST /api/orders` with body
   * `{userId, items}`; `now` is the timestamp the database stamps on the order.
   */
  function PlaceOrder(db: Db, userId: Option<int>, items: Option<seq<CartItem>>, now: int): (r: (Outcome, Db))
    ensures r.0 == InvalidOrder <==> !ValidRequest(userId, items)
    ensures r.0.Created? <==> Succeeds(db, userId, items)
    ensures !r.0.Created? ==> SameTables(db, r.1)
    ensures r.1.users == db.users && r.1.userSeq == db.userSeq
    ensures r.1.orderSeq >= db.orderSeq && r.1.itemSeq >= db.itemSeq
    ensures r.0.Created? ==> r.0.orderId == db.orderSeq && r.1.orderSeq == db.orderSeq + 1
    ensures r.0.Failed? && r.0.cause.ItemRejected? ==>
      var j := FirstRejected(db.products, items.value);
      && j < |items.value|
      && Rejects(Debit(db.products, items.value[..j]), items.value[j]) == Some(r.0.cause.why)
      && r.1.itemSeq == db.itemSeq + j + (if DrawsItemId(r.0.cause.why) then 1 else 0)
  {
    if !ValidRequest(userId, items) then (InvalidOrder, db)
    else
      var cart := items.value;
      var k := FirstUnavailable(db.products, cart);
      if k < |cart| then (Failed(Unavailable(cart[k].productId)), db)
      else InsertOrder(db, userId.value, cart, now)
  }

  /**
   * The rest of the transaction once every entry passed the stock check:
   * `INSERT INTO orders`, the second pass over the cart and COMMIT
   * (server.js:65-72).
   */
  function InsertOrder(db: Db, userId: int, cart: seq<CartItem>, now: int): (Outcome, Db)
    requires AllKnown(db.products, cart)
  {
    // a user id INTEGER cannot hold is refused when bound, before an id is drawn
    if !IsInt32(userId) then (Failed(UnknownUser), db)
    else
      // the INSERT INTO orders has drawn its id before the foreign key is checked
      var afterOrder := db.(orderSeq := db.orderSeq + 1);
      if userId !in UserIds(db.users) then (Failed(UnknownUser), afterOrder)
      else
        var j := FirstRejected(db.products, cart);
        // entries 0 .. j-1 were written; entry j failed, after drawing an item id unless its quantity was refused
        if j < |cart| then
          var why := Rejects(Debit(db.products, cart[..j]), cart[j]).value;
          (Failed(ItemRejected(why)), afterOrder.(itemSeq := db.itemSeq + j + (if DrawsItemId(why) then 1 else 0)))
        else
          (Created(db.orderSeq),
           afterOrder.(
             products := Debit(db.products, cart),
             orders := db.orders + [NewOrder(db, userId, cart, now)],
             orderItems := db.orderItems + LineItems(db.orderSeq, db.itemSeq, cart),
             itemSeq := db.itemSeq + |cart|))
  }

  /** A malformed request is answered 400 and touches nothing, not even an id counter. */
  lemma InvalidRequestChangesNothing(db: Db, userId: Option<int>, items: Option<seq<CartItem>>, now: int)
    requires userId.None? || userId == Some(0) || items.None? || items == Some([])
    ensures PlaceOrder(db, userId, items, now) == (InvalidOrder, db)
  {
  }

  /**
   * If some entry names a missing product or asks for more than the stock
   * read at the start, the checkout answers 500 and the database is exactly
   * as before: the check of every entry precedes every write.
   */
  lemma UnavailableItemRollsBack(db: Db, userId: Option<int>, cart: seq<CartItem>, now: int, i: nat)
    requires !Falsy(userId)
    requires i < |cart| && !Available(db.products, cart[i])
    ensures PlaceOrder(db, userId, Some(cart), now).0.Failed?
    ensures PlaceOrder(db, userId, Some(cart), now).0.cause.Unavailable?
    ensures PlaceOrder(db, userId, Some(cart), now).1 == db
  {
  }

  /**
   * An order for a user id with no row fails after the stock checks: 500 and
   * the tables as before. An id INTEGER can hold fails on the foreign key and
   * uses up one order id; any other is refused before an id is drawn.
   */
  lemma UnknownUserRollsBack(db: Db, userId: int, cart: seq<CartItem>, now: int)
    requires userId != 0 && |cart| > 0
    requires forall j :: 0 <= j < |cart| ==> Available(db.products, cart[j])
    requires userId !in UserIds(db.users)
    ensures PlaceOrder(db, Some(userId), Some(cart), now) ==
      (Failed(UnknownUser), if IsInt32(userId) then db.(orderSeq := db.orderSeq + 1) else db)
  {
  }

  /** Every failure, whatever its cause, leaves the four tables as they were. */
  lemma FailureIsAllOrNothing(db: Db, userId: Option<int>, items: Option<seq<CartItem>>, now: int)
    requires !PlaceOrder(db, userId, items, now).0.Created?
    ensures SameTables(db, PlaceOrder(db, userId, items, now).1)
    ensures PlaceOrder(db, userId, items, now).0.Status() in {400, 500}
  {
  }

  /**
   * A successful checkout adds exactly one order, with the fresh id it
   * reports and the total computed from the server's prices, and keeps every
   * earlier order.
   */
  lemma CheckoutAddsOneOrder(db: Db, userId: Option<int>, cart: seq<CartItem>, now: int)
    requires Consistent(db)
    requires PlaceOrder(db, userId, Some(cart), now).0.Created?
    ensures AllKnown(db.products, cart) && AllQuantified(cart)
    ensures var (out, after) := PlaceOrder(db, userId, Some(cart), now);
      && out.orderId !in OrderIds(db.orders)
      && |after.orders| == |db.orders| + 1
      && after.orders[..|db.orders|] == db.orders
      && after.orders[|db.orders|] == Order(out.orderId, userId.value, now, Total(db.products, cart))
  {
  }

  /**
   * Client prices never enter the total: two successful checkouts of carts
   * that agree on products and quantities give the same order row and the
   * same products table.
   */
  lemma ClientPriceOnlyReachesItems(db: Db, userId: Option<int>, a: seq<CartItem>, b: seq<CartItem>, now: int)
    requires PlaceOrder(db, userId, Some(a), now).0.Created?
    requires PlaceOrder(db, userId, Some(b), now).0.Created?
    requires |a| == |b|
    requires forall i :: 0 <= i < |a| ==> a[i].productId == b[i].productId && a[i].quantity == b[i].quantity
    ensures PlaceOrder(db, userId, Some(a), now).1.orders == PlaceOrder(db, userId, Some(b), now).1.orders
    ensures PlaceOrder(db, userId, Some(a), now).1.products == PlaceOrder(db, userId, Some(b), now).1.products
  {
    AllAvailableKnown(db.products, a);
    TotalIgnoresClientPrice(db.products, a, b);
    DebitIgnoresClientPrice(db.products, a, b);
  }

  /**
   * A successful checkout inserts one order item per cart entry, in cart
   * order, each with a fresh id, the new order's id, the entry's product and
   * quantity, and the price the CLIENT sent; earlier rows stay.
   */
  lemma CheckoutAddsLineItems(db: Db, userId: Option<int>, cart: seq<CartItem>, now: int)
    requires Consistent(db)
    requires PlaceOrder(db, userId, Some(cart), now).0.Created?
    ensures AllInsertable(cart)
    ensures var (out, after) := PlaceOrder(db, userId, Some(cart), now);
      && |after.orderItems| == |db.orderItems| + |cart|
      && after.orderItems[..|db.orderItems|] == db.orderItems
      && after.itemSeq == db.itemSeq + |cart|
      && forall i :: 0 <= i < |cart| ==>
           after.orderItems[|db.orderItems| + i] ==
             OrderItem(db.itemSeq + i, out.orderId, cart[i].productId, cart[i].quantity.value, cart[i].clientPrice.value)
  {
    LineItemsAt(db.orderSeq, db.itemSeq, cart);
  }

  /**
   * A successful checkout lowers each product's stock by the total quantity
   * the cart asks of it across all its entries, and changes nothing else in
   * the products table.
   */
  lemma CheckoutDebitsStock(db: Db, userId: Option<int>, cart: seq<CartItem>, now: int)
    requires PlaceOrder(db, userId, Some(cart), now).0.Created?
    ensures AllQuantified(cart)
    ensures var after := PlaceOrder(db, userId, Some(cart), now).1;
      && after.products.Keys == db.products.Keys
      && forall pid :: pid in db.products ==>
           after.products[pid] == db.products[pid].(stock := db.products[pid].stock - QuantityOf(cart, pid))
  {
    DebitEffect(db.products, cart);
  }

  /** With distinct product ids in the cart, no product it names is left with negative stock. */
  lemma DistinctCartNeverOversells(db: Db, userId: Option<int>, cart: seq<CartItem>, now: int)
    requires PlaceOrder(db, userId, Some(cart), now).0.Created?
    requires DistinctProducts(cart)
    ensures AllQuantified(cart)
    ensures var after := PlaceOrder(db, userId, Some(cart), now).1;
      forall i :: 0 <= i < |cart| ==>
        cart[i].productId in after.products && after.products[cart[i].productId].stock >= 0
  {
    DistinctCartKeepsStock(db.products, cart);
  }

  /**
   * A cart that lists one product twice is checked entry by entry against the
   * stock read before any debit, so it can sell more than there is.
   */
  lemma RepeatedProductOversells()
    ensures var db := Db(map[5 := Product(5, "Mouse", 4500, "", 4.0, 10, "Acessorios", 1)],
                         [User(1, "Ana", "ana@example.com", "h")], [], [], 2, 1, 1);
            var cart := [CartItem(5, Some(1), Some(4500)), CartItem(5, Some(1), Some(4500))];
            var (out, after) := PlaceOrder(db, Some(1), Some(cart), 0);
            out == Created(1) && 5 in after.products && after.products[5].stock == -1
  {
  }

  /** Every checkout, successful or not, keeps every schema constraint of the database. */
  lemma CheckoutPreservesConsistency(db: Db, userId: Option<int>, items: Option<seq<CartItem>>, now: int)
    requires Consistent(db)
    ensures Consistent(PlaceOrder(db, userId, items, now).1)
  {
    var (out, after) := PlaceOrder(db, userId, items, now);
    if out.Created? {
      var cart := items.value;
      AllAvailableKnown(db.products, cart);
      CheckoutAddsLineItems(db, userId, cart, now);
      CheckoutDebitsStock(db, userId, cart, now);
      DebitStaysInRange(db.products, cart);
      assert after.orders == db.orders + [NewOrder(db, userId.value, cart, now)];
      OrderAppendKeepsConstraints(db.orders, db.orderSeq, db.users, NewOrder(db, userId.value, cart, now));
      NewItemsKeepConstraints(db, after, cart);
    }
  }

  /** Appending an order with the counter's id and an existing user keeps the orders' constraints. */
  lemma OrderAppendKeepsConstraints(orders: seq<Order>, orderSeq: int, users: seq<User>, o: Order)
    requires OrdersWellFormed(orders, orderSeq, users)
    requires o.id == orderSeq && o.userId in UserIds(users)
    ensures OrdersWellFormed(orders + [o], orderSeq + 1, users)
    ensures OrderIds(orders + [o]) == OrderIds(orders) + {o.id}
  {
  }

  /** The item rows of a successful checkout satisfy both foreign keys and the id order. */
  lemma NewItemsKeepConstraints(db: Db, after: Db, cart: seq<CartItem>)
    requires ItemsWellFormed(db.orderItems, db.itemSeq, db.orders, db.products)
    requires AllKnown(db.products, cart) && AllInsertable(cart)
    requires after.products.Keys == db.products.Keys
    requires OrderIds(after.orders) == OrderIds(db.orders) + {db.orderSeq}
    requires after.itemSeq == db.itemSeq + |cart|
    requires |after.orderItems| == |db.orderItems| + |cart|
    requires after.orderItems[..|db.orderItems|] == db.orderItems
    requires forall i :: 0 <= i < |cart| ==>
      after.orderItems[|db.orderItems| + i] ==
        OrderItem(db.itemSeq + i, db.orderSeq, cart[i].productId, cart[i].quantity.value, cart[i].clientPrice.value)
    ensures ItemsWellFormed(after.orderItems, after.itemSeq, after.orders, after.products)
  {
    var n := |db.orderItems|;
    forall i | 0 <= i < |after.orderItems|
      ensures after.orderItems[i].orderId in OrderIds(after.orders)
      ensures after.orderItems[i].productId in after.products
      ensures after.orderItems[i].id < after.itemSeq
      ensures i < n ==> after.orderItems[i] == db.orderItems[i]
      ensures i >= n ==> after.orderItems[i].id == db.itemSeq + i - n
      ensures IsInt32(after.orderItems[i].quantity)
    {
      if i < n {
        assert after.orderItems[i] == after.orderItems[..n][i];
      } else {
        var k := i - n;
        assert after.orderItems[n + k].productId == cart[k].productId;
        assert cart[k] in cart;
      }
    }
  }

  /** The entries of a cart that passed the stock check all name existing products. */
  lemma AllAvailableKnown(products: map<int, Product>, cart: seq<CartItem>)
    requires FirstUnavailable(products, cart) == |cart|
    ensures AllKnown(products, cart)
  {
  }

  /** Debiting does not look at client prices either. */
  lemma {:induction false} DebitIgnoresClientPrice(products: map<int, Product>, a: seq<CartItem>, b: seq<CartItem>)
    requires |a| == |b| && AllQuantified(a)
    requires forall i :: 0 <= i < |a| ==> a[i].productId == b[i].productId && a[i].quantity == b[i].quantity
    ensures AllQuantified(b) && Debit(products, a) == Debit(products, b)
  {
    if a != [] {
      var n := |a| - 1;
      DebitIgnoresClientPrice(products, a[..n], b[..n]);
    }
  }

  /** The order a successful checkout creates is in that user's order history afterwards. */
  lemma CheckoutShowsInHistory(db: Db, userId: Option<int>, cart: seq<CartItem>, now: int)
    requires PlaceOrder(db, userId, Some(cart), now).0.Created?
    ensures AllKnown(db.products, cart) && AllQuantified(cart)
    ensures var after := PlaceOrder(db, userId, Some(cart), now).1;
      History.OrderHistory(after.orders, userId).Orders? &&
      History.Summary(NewOrder(db, userId.value, cart, now)) in History.OrderHistory(after.orders, userId).rows
  {
    AllAvailableKnown(db.products, cart);
    var after := PlaceOrder(db, userId, Some(cart), now).1;
    var o := NewOrder(db, userId.value, cart, now);
    assert o in after.orders;
    History.HistoryHasExactlyTheUsersOrders(after.orders, userId.value, History.Summary(o));
  }

  /** The example of a single-entry cart: 2 units at 450.00 from a stock of 30. */
  lemma SingleItemExample()
    ensures var db := Db(map[5 := Product(5, "Teclado", 45000, "", 4.5, 12, "Perifericos", 30)],
                         [User(1, "Ana", "ana@example.com", "h")], [], [], 2, 1, 1);
            var (out, after) := PlaceOrder(db, Some(1), Some([CartItem(5, Some(2), Some(45000))]), 7);
            && out == Created(1)
            && after.orders == [Order(1, 1, 7, 90000)]
            && after.orderItems == [OrderItem(1, 1, 5, 2, 45000)]
            && after.products[5].stock == 28
  {
  }

  /** The same product with no stock left: the checkout fails and nothing changes. */
  lemma OutOfStockExample()
    ensures var db := Db(map[5 := Product(5, "Teclado", 45000, "", 4.5, 12, "Perifericos", 0)],
                         [User(1, "Ana", "ana@example.com", "h")], [], [], 2, 1, 1);
            PlaceOrder(db, Some(1), Some([CartItem(5, Some(1), Some(45000))]), 7) == (Failed(Unavailable(5)), db)
  {
  }

  /**
   * A quantity of -2147483640 passes the stock check against a stock of 10,
   * but the new stock 2147483650 does not fit INTEGER: the update fails after
   * the order and its item drew their ids, and no row is written.
   */
  lemma StockOverflowExample()
    ensures var db := Db(map[5 := Product(5, "Teclado", 45000, "", 4.5, 12, "Perifericos", 10)],
                         [User(1, "Ana", "ana@example.com", "h")], [], [], 2, 1, 1);
            PlaceOrder(db, Some(1), Some([CartItem(5, Some(-2147483640), Some(45000))]), 7) ==
              (Failed(ItemRejected(StockOutOfRange)), db.(orderSeq := 2, itemSeq := 2))
  {
  }

  /** A quantity INTEGER cannot hold is refused before the order item draws an id. */
  lemma QuantityOutOfRangeExample()
    ensures var db := Db(map[5 := Product(5, "Teclado", 45000, "", 4.5, 12, "Perifericos", 10)],
                         [User(1, "Ana", "ana@example.com", "h")], [], [], 2, 1, 1);
            PlaceOrder(db, Some(1), Some([CartItem(5, Some(-3000000000), Some(45000))]), 7) ==
              (Failed(ItemRejected(QuantityOutOfRange)), db.(orderSeq := 2))
  {
  }

  /**
   * An entry without a quantity passes the stock check (`undefined > stock`
   * is false) but its order item would have a NULL quantity: the checkout
   * fails and no row is written.
   */
  lemma MissingQuantityExample()
    ensures var db := Db(map[5 := Product(5, "Teclado", 45000, "", 4.5, 12, "Perifericos", 10)],
                         [User(1, "Ana", "ana@example.com", "h")], [], [], 2, 1, 1);
            PlaceOrder(db, Some(1), Some([CartItem(5, None, Some(45000))]), 7) ==
              (Failed(ItemRejected(NullColumn)), db.(orderSeq := 2, itemSeq := 2))
  {
  }
}
