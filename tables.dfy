/**
 * The four tables of the shop's database (server.js:28-31) as Dafny values,
 * and the constraints the schema puts on them.
 *
 * Prices are integer cents, so that totals are exact. Each SERIAL column is
 * backed by a counter that holds the next id the database hands out; such a
 * counter is not part of any transaction, so a rollback does not wind it back.
 */
module Tables {

  /** A row of `products`; `price` is in cents. */
  datatype Product = Product(
    id: int, name: string, price: int, image: string,
    rating: real, reviewCount: int, category: string, stock: int)

  /** A row of `users`; `passwordHash` is the stored bcrypt hash, never the password. */
  datatype User = User(id: int, name: string, email: string, passwordHash: string)

  /** A row of `orders`; `orderDate` is the timestamp the database stamped on it. */
  datatype Order = Order(id: int, userId: int, orderDate: int, totalPrice: int)

  /** A row of `order_items`. */
  datatype OrderItem = OrderItem(id: int, orderId: int, productId: int, quantity: int, pricePerUnit: int)

  /**
   * A snapshot of the whole database: the four tables, in row order, and the
   * three id counters (the next value of each SERIAL sequence).
   */
  datatype Db = Db(
    products: map<int, Product>,
    users: seq<User>,
    orders: seq<Order>,
    orderItems: seq<OrderItem>,
    userSeq: int,
    orderSeq: int,
    itemSeq: int)

  /** A value an INTEGER column or parameter can hold: PostgreSQL's `integer` is 32-bit. */
  predicate IsInt32(x: int) {
    -0x8000_0000 <= x < 0x8000_0000
  }

  function UserIds(users: seq<User>): set<int> {
    set u | u in users :: u.id
  }

  function Emails(users: seq<User>): set<string> {
    set u | u in users :: u.email
  }

  function OrderIds(orders: seq<Order>): set<int> {
    set o | o in orders :: o.id
  }

  /** Two snapshots hold the same rows; their id counters may differ. */
  predicate SameTables(a: Db, b: Db) {
    a.products == b.products && a.users == b.users &&
    a.orders == b.orders && a.orderItems == b.orderItems
  }

  /** `products.id` is the key the map is indexed by (PRIMARY KEY). */
  predicate ProductsKeyed(products: map<int, Product>) {
    forall pid :: pid in products ==> products[pid].id == pid
  }

  /** `products.id` and `products.stock` are INTEGER columns. */
  predicate IntegersInRange(products: map<int, Product>) {
    forall pid :: pid in products ==> IsInt32(pid) && IsInt32(products[pid].stock)
  }

  /** Users: ids handed out in increasing order and below the counter; emails UNIQUE. */
  predicate UsersWellFormed(users: seq<User>, userSeq: int) {
    && (forall i, j :: 0 <= i < j < |users| ==> users[i].id < users[j].id)
    && (forall i :: 0 <= i < |users| ==> users[i].id < userSeq)
    && (forall i, j :: 0 <= i < j < |users| ==> users[i].email != users[j].email)
  }

  /** Orders: ids increasing and below the counter; `user_id` REFERENCES users (id). */
  predicate OrdersWellFormed(orders: seq<Order>, orderSeq: int, users: seq<User>) {
    && (forall i, j :: 0 <= i < j < |orders| ==> orders[i].id < orders[j].id)
    && (forall i :: 0 <= i < |orders| ==> orders[i].id < orderSeq)
    && (forall i :: 0 <= i < |orders| ==> orders[i].userId in UserIds(users))
  }

  /** Order items: ids increasing and below the counter; INTEGER quantities; both foreign keys hold. */
  predicate ItemsWellFormed(items: seq<OrderItem>, itemSeq: int, orders: seq<Order>, products: map<int, Product>) {
    && (forall i, j :: 0 <= i < j < |items| ==> items[i].id < items[j].id)
    && (forall i :: 0 <= i < |items| ==> items[i].id < itemSeq)
    && (forall i :: 0 <= i < |items| ==> IsInt32(items[i].quantity))
    && (forall i :: 0 <= i < |items| ==> items[i].orderId in OrderIds(orders))
    && (forall i :: 0 <= i < |items| ==> items[i].productId in products)
  }

  /** Every constraint the schema declares, over one snapshot. */
  predicate Consistent(db: Db) {
    && ProductsKeyed(db.products)
    && IntegersInRange(db.products)
    && UsersWellFormed(db.users, db.userSeq)
    && OrdersWellFormed(db.orders, db.orderSeq, db.users)
    && ItemsWellFormed(db.orderItems, db.itemSeq, db.orders, db.products)
  }

  /**
   * A database just after `createTables` (server.js:27-40). The products
   * table holds the given rows: no handler inserts a product, so they are a
   * parameter, keyed by id and with id and stock fitting INTEGER as the
   * table demands. The other tables are empty, and every SERIAL sequence
   * starts at 1.
   */
  function Initial(products: map<int, Product>): (db: Db)
    requires ProductsKeyed(products) && IntegersInRange(products)
    ensures Consistent(db)
    ensures db.products == products
    ensures db.users == [] && db.orders == [] && db.orderItems == []
    ensures db.userSeq == 1 && db.orderSeq == 1 && db.itemSeq == 1
  {
    Db(products, [], [], [], 1, 1, 1)
  }
}
