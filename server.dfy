/**
 * The database as the route handlers see it: one store object whose fields
 * are the four tables and the three id counters, with the two handlers that
 * write to it. Each is proved to do exactly what its specification function
 * says (`Checkout.PlaceOrder`, `Accounts.SignUp`).
 */
module Server {
  import opened Wrappers
  import opened Tables
  import opened Cart
  import Checkout
  import Accounts

  class Store {
    var products: map<int, Product>
    var users: seq<User>
    var orders: seq<Order>
    var orderItems: seq<OrderItem>
    var userSeq: int
    var orderSeq: int
    var itemSeq: int

    /** The store's contents as a value. */
    function State(): Db
      reads this
    {
      Db(products, users, orders, orderItems, userSeq, orderSeq, itemSeq)
    }

    /** The schema's constraints hold. */
    ghost predicate Valid()
      reads this
    {
      Consistent(State())
    }

    /** A new database holding the given product rows, loaded outside the server, and nothing else. */
    constructor (catalogue: map<int, Product>)
      requires ProductsKeyed(catalogue) && IntegersInRange(catalogue)
      ensures Valid() && State() == Initial(catalogue)
    {
      products, users, orders, orderItems := catalogue, [], [], [];
      userSeq, orderSeq, itemSeq := 1, 1, 1;
    }

    /**
     * `POST /api/orders` (server.js:48-80). The transaction reads and writes
     * copies of the tables; COMMIT stores the copies, ROLLBACK drops them.
     * The id counters are advanced in place, as SERIAL sequences are.
     */
    method PlaceOrder(userId: Option<int>, items: Option<seq<CartItem>>, now: int) returns (r: Checkout.Outcome)
      requires Valid()
      modifies this
      ensures Valid()
      ensures (r, State()) == Checkout.PlaceOrder(old(State()), userId, items, now)
    {
      Checkout.CheckoutPreservesConsistency(State(), userId, items, now);
      if userId.None? || userId.value == 0 || items.None? || |items.value| == 0 {
        return Checkout.InvalidOrder;
      }
      var cart := items.value;
      // BEGIN; the first pass only reads, so it reads the tables themselves

      // first pass: read each product's price and stock, and add up the total
      var k, totalPrice := SumServerPrices(products, cart);
      if k < |cart| {
        return Checkout.Failed(Checkout.Unavailable(cart[k].productId));  // ROLLBACK
      }
      r := InsertOrder(userId.value, cart, totalPrice, now);
    }

    /**
     * The checkout after the first pass (server.js:65-72): INSERT INTO orders,
     * the second pass, and COMMIT or ROLLBACK. `totalPrice` is the first
     * pass's sum, a number whenever every entry has a quantity.
     */
    method InsertOrder(userId: int, cart: seq<CartItem>, totalPrice: Option<int>, now: int) returns (r: Checkout.Outcome)
      requires AllKnown(products, cart)
      requires AllQuantified(cart) ==> totalPrice == Some(Total(products, cart))
      modifies this
      ensures (r, State()) == Checkout.InsertOrder(old(State()), userId, cart, now)
    {
      // the transaction's copies of the tables it writes
      var txProducts, txOrders, txItems := products, orders, orderItems;

      // INSERT INTO orders: a user id INTEGER cannot hold is refused when bound;
      // otherwise the id is drawn, then the foreign key on user_id is checked
      if !IsInt32(userId) {
        return Checkout.Failed(Checkout.UnknownUser);  // ROLLBACK
      }
      var orderId := orderSeq;
      orderSeq := orderSeq + 1;
      if userId !in UserIds(users) {
        return Checkout.Failed(Checkout.UnknownUser);  // ROLLBACK
      }

      // second pass: one order item per entry, and the stock debit
      var j, lines, debited, rejected := WriteLines(txProducts, orderId, cart);
      if rejected.Some? {
        return Checkout.Failed(Checkout.ItemRejected(rejected.value));  // ROLLBACK
      }
      // The order row inserted before the second pass, which does not read it.
      // Its total is a number here: an entry without a quantity, which makes
      // the total NaN, is always rejected by the second pass.
      txOrders := txOrders + [Order(orderId, userId, now, totalPrice.value)];
      txItems, txProducts := txItems + lines, debited;

      // COMMIT
      products, orders, orderItems := txProducts, txOrders, txItems;
      r := Checkout.Created(orderId);
    }

    /**
     * The second loop of the checkout (server.js:67-70) over the transaction's
     * copy of the products table: for each entry, INSERT INTO order_items
     * (drawing an item id) and debit the product's stock. Stops at the first
     * entry whose insert or update fails, and says why.
     */
    method WriteLines(txProducts: map<int, Product>, orderId: int, cart: seq<CartItem>)
      returns (k: nat, lines: seq<OrderItem>, debited: map<int, Product>, rejected: Option<Rejection>)
      modifies this`itemSeq
      ensures k == FirstRejected(txProducts, cart)
      ensures rejected.None? <==> k == |cart|
      ensures k < |cart| ==> rejected == Rejects(Debit(txProducts, cart[..k]), cart[k])
      ensures itemSeq == old(itemSeq) + k + (if rejected.Some? && DrawsItemId(rejected.value) then 1 else 0)
      ensures k == |cart| ==> AllInsertable(cart) && lines == LineItems(orderId, old(itemSeq), cart)
      ensures k == |cart| ==> debited == Debit(txProducts, cart)
    {
      lines, debited, rejected := [], txProducts, None;
      k := 0;
      while k < |cart|
        invariant 0 <= k <= |cart|
        invariant itemSeq == old(itemSeq) + k
        invariant AllPass(txProducts, cart[..k])
        invariant lines == LineItems(orderId, old(itemSeq), cart[..k])
        invariant debited == Debit(txProducts, cart[..k])
      {
        var item := cart[k];
        assert cart[..k + 1][..k] == cart[..k];
        // the quantity parameter is bound before the INSERT draws its id
        if item.quantity.Some? && !IsInt32(item.quantity.value) {
          rejected := Some(QuantityOutOfRange);
          FirstRejectedAt(txProducts, cart, k);
          return;
        }
        var lineId := itemSeq;
        itemSeq := itemSeq + 1;
        // NOT NULL on quantity and price_per_unit
        if item.quantity.None? || item.clientPrice.None? {
          rejected := Some(NullColumn);
          FirstRejectedAt(txProducts, cart, k);
          return;
        }
        var quantity := item.quantity.value;
        lines := lines + [OrderItem(lineId, orderId, item.productId, quantity, item.clientPrice.value)];
        // UPDATE products SET stock = stock - quantity WHERE id = productId
        if item.productId in debited {
          var p := debited[item.productId];
          if !IsInt32(p.stock - quantity) {
            rejected := Some(StockOutOfRange);
            FirstRejectedAt(txProducts, cart, k);
            return;
          }
          debited := debited[item.productId := p.(stock := p.stock - quantity)];
        }
        k := k + 1;
      }
      assert cart[..k] == cart;
    }

    /**
     * `POST /api/register` (server.js:45): hash the password, then INSERT;
     * the insert draws a user id before its constraints are checked.
     */
    method Register(name: Option<string>, email: Option<string>, password: Option<string>,
                    hash: string -> string) returns (r: Accounts.RegisterOutcome)
      requires Valid()
      modifies this
      ensures Valid()
      ensures (r, State()) == Accounts.SignUp(old(State()), name, email, password, hash)
    {
      Accounts.SignUpPreservesConsistency(State(), name, email, password, hash);
      if password.None? {
        return Accounts.RegisterError;  // bcrypt.hash throws
      }
      var hashed := hash(password.value);
      var id := userSeq;
      userSeq := userSeq + 1;
      if name.None? || email.None? {
        return Accounts.RegisterError;  // NOT NULL violation
      }
      if email.value in Emails(users) {
        return Accounts.EmailTaken;     // unique violation, error 23505
      }
      users := users + [User(id, name.value, email.value, hashed)];
      r := Accounts.Registered(Accounts.UserView(id, name.value, email.value));
    }
  }
}
