# DutraShop backend: checkout, accounts and order history

This project models the request handlers of the DutraShop e-commerce API
(`server.js`) that read and write its PostgreSQL database. The database has
four tables: `products`, `users`, `orders` and `order_items`. The model
proves what each handler does to those tables.

The centre is the checkout, `POST /api/orders`. It runs in one transaction:
- It validates the request.
- It reads each cart entry's product, failing on a missing product or on
  a quantity above the stock. It adds up the total from the server's prices.
- It inserts one order.
- It inserts one order item per entry and debits each product's stock.
- It commits, or rolls everything back on any error.

Around it sit registration, login, product lookup by id and a user's order
history.

How the model is built:
- `Tables` holds the rows as datatypes and the database as a value (`Db`):
  the four tables plus the three SERIAL id counters. It also holds the
  schema's constraints (`Consistent`): primary keys, UNIQUE email, and the
  foreign keys from orders to users and from order items to orders and
  products.
- `Checkout.PlaceOrder` and `Accounts.SignUp` are specification functions.
  Each maps the database before a request to the response and the database
  after it. The lemmas beside them state the handlers' guarantees.
- `Server.Store` is the database as a mutable object. Its methods
  `PlaceOrder` and `Register` run the handlers' steps, including both
  checkout loops (`Cart.SumServerPrices`, `Server.Store.WriteLines`). Each is
  proved to produce exactly the response and new state its specification
  function gives, and to keep the constraints.
- The transaction works on copies of the tables. COMMIT stores the copies;
  ROLLBACK drops them.
- The id counters live outside the transaction, as PostgreSQL sequences do.
  An insert that draws an id and then fails leaves that id used up. The
  tables themselves always return exactly to their old rows.
- Read-only handlers are functions of the table they query: `Catalog.FindProduct`,
  `Accounts.Login` and `History.OrderHistory`.

Behaviour reproduced as the code has it:
- All stock checks come before any debit. A cart that lists one product
  twice is checked entry by entry against the original stock. It can leave
  that stock negative (`Checkout.RepeatedProductOversells`). With distinct
  products no named stock goes negative (`Checkout.DistinctCartNeverOversells`).
- Quantities are never checked to be positive. A negative quantity raises
  the stock and lowers the total.
- Each order item records the price the client sent (server.js:68). The
  order total uses the server's price. The item rows add up to the order
  total when the two prices agree (`Cart.LineTotalMatchesWhenPricesAgree`).
- A cart entry without a quantity passes the stock check, because
  `undefined > stock` is false, and makes the total NaN. Its order-item
  insert then fails on NOT NULL, as does one without a client price, and
  the transaction rolls back.
- `quantity`, `stock` and every id are INTEGER columns, which hold 32 bits.
  A quantity outside that range is refused when the order-item insert binds
  it. A stock update whose result leaves the range fails, for example a
  quantity of -2147483640 against a stock of 10. Both roll back the
  checkout (`Checkout.StockOverflowExample`).
- A user id with no row fails the checkout on the foreign key of
  `orders.user_id`, after the stock checks. The response is 500. A user id
  outside the INTEGER range fails the same way, but before an order id is
  drawn.
- A missing or out-of-stock product gives 500, not a 4xx status.
- `userId` 0 in the checkout body is falsy and gives 400. In the history
  query string, `"0"` is a non-empty string, so it passes the check.
- Prices are integer cents, so totals are exact.

## Model

| member | source | states |
|---|---|---|
| `Tables.Initial` | server.js:27-31 | the database after table creation: exactly the given product rows (keyed by id, id and stock within INTEGER), no users, orders or items, every id sequence at 1, and every schema constraint satisfied |
| `Cart.FirstUnavailable` | server.js:59-62 | the index where the first checkout loop throws: every earlier entry names an existing product with enough stock, and the entry at the index does not |
| `Cart.AllPass` | server.js:67-69 | a cart whose every entry gets through the second loop has, in every entry, a quantity within INTEGER and a client price |
| `Cart.FirstRejected` | server.js:67-69 | the index where the second loop fails: every earlier entry gets through, each judged against the stock the entries before it left; the entry at the index is rejected; the index is the cart's length exactly when every entry gets through |
| `Cart.AllPassPrefix` | server.js:67-69 | when the whole cart gets through the second loop, so does every prefix, and each entry gets through against the stock its predecessors left |
| `Cart.FirstRejectedAt` | server.js:67-69 | an entry that is rejected after every earlier entry got through is the first rejected entry |
| `Cart.DebitStaysInRange` | server.js:69 | when every entry gets through, every stock after the updates still fits INTEGER |
| `Cart.SumServerPrices` | server.js:58-64 | the first loop stops exactly at the first unavailable entry; when it goes through, the total is a number exactly when every entry has a quantity (otherwise NaN), and it is then the sum of server price times quantity over the cart |
| `Cart.TotalIgnoresClientPrice` | server.js:60-63 | two carts that agree on product ids and quantities have the same total, whatever prices the client sent |
| `Cart.DebitEffect` | server.js:67-69 | after the stock updates every product keeps its row and its fields, except that its stock is lowered by the sum of the quantities of all entries naming it |
| `Cart.DistinctCartKeepsStock` | server.js:59-69 | if every entry passed the stock check and no product id repeats, every product the cart names ends with stock at least 0 |
| `Cart.LineItemsAt` | server.js:67-68 | the i-th inserted order item has id firstId+i, the order id, entry i's product and quantity, and entry i's client price |
| `Cart.LineTotalMatchesWhenPricesAgree` | server.js:63-68 | when every client price equals the server price, the items' price times quantity sum to the order total |
| `Checkout.PlaceOrder` | server.js:48-80 | 400 exactly when validation fails; success exactly when validation, every stock check, the user id (in range and with a row) and every order-item insert and stock update pass; any failure leaves all four tables as they were; users never change; id counters only grow; success reports the id drawn for the order; an item failure names the first rejected entry's cause and uses up one item id per insert tried, the refused one included unless its quantity was out of range; the steps after the stock checks (server.js:65-76) are the phase function `Checkout.InsertOrder`, which has no contract of its own: these ensures pin its result |
| `Checkout.InvalidRequestChangesNothing` | server.js:51-54 | a missing or zero user id, or a missing or empty item list, gives 400 and leaves the database, counters included, unchanged |
| `Checkout.UnavailableItemRollsBack` | server.js:59-76 | one entry naming a missing product or asking more than the stock read at the start gives 500, and the database is exactly as before |
| `Checkout.UnknownUserRollsBack` | server.js:65-76 | a user id with no row, on a cart that passed the stock checks, gives 500 with the tables unchanged; one order id is used up when the id fits INTEGER, none otherwise |
| `Checkout.FailureIsAllOrNothing` | server.js:73-76 | every unsuccessful checkout answers 400 or 500 and leaves products, users, orders and order items as they were |
| `Checkout.CheckoutAddsOneOrder` | server.js:65-66 | success appends exactly one order, with an id not used before, the user id, the timestamp, and the total of server price times quantity, and keeps every earlier order |
| `Checkout.ClientPriceOnlyReachesItems` | server.js:58-69 | two successful checkouts of carts agreeing on products and quantities produce identical orders and products tables |
| `Checkout.CheckoutAddsLineItems` | server.js:67-68 | success appends one order item per entry, in cart order, with fresh consecutive ids, the new order id, the entry's product and quantity and the client price, and keeps earlier items |
| `Checkout.CheckoutDebitsStock` | server.js:67-69 | success lowers each product's stock by the total quantity ordered for it and changes nothing else in the products table |
| `Checkout.DistinctCartNeverOversells` | server.js:59-69 | on success with distinct product ids, no product the cart names has negative stock |
| `Checkout.RepeatedProductOversells` | server.js:59-69 | a stock of 1 and a cart with two entries of 1 unit of that product: the checkout succeeds and the stock becomes -1 |
| `Checkout.CheckoutPreservesConsistency` | server.js:28-31 | every checkout, successful or not, keeps the keys, the UNIQUE email, every foreign key and the INTEGER range of stocks and item quantities |
| `Checkout.CheckoutShowsInHistory` | server.js:96-104 | after a successful checkout the new order's id, date and total appear in that user's order history |
| `Checkout.SingleItemExample` | server.js:48-80 | 2 units at 450.00 from a stock of 30: order 1 with total 900.00, one item of 2 at 450.00, stock 28 |
| `Checkout.OutOfStockExample` | server.js:59-76 | 1 unit from a stock of 0: 500, no order, stock still 0 |
| `Checkout.StockOverflowExample` | server.js:67-76 | a quantity of -2147483640 against a stock of 10: the stock update overflows INTEGER, 500, tables unchanged, one order id and one item id used up |
| `Checkout.QuantityOutOfRangeExample` | server.js:67-76 | a quantity of -3000000000: refused when bound, 500, tables unchanged, one order id and no item id used up |
| `Checkout.MissingQuantityExample` | server.js:58-76 | an entry without a quantity passes the stock check, then its order item hits NOT NULL: 500, tables unchanged |
| `Accounts.SignUp` | server.js:45 | 500 exactly when a field is missing; 409 exactly when all fields are present and the email is taken; success exactly otherwise, appending one row with the next id and the hash of the password and answering its id, name and email; failures leave users as they were; the user id sequence advances exactly when a password was given; other tables and counters untouched; user constraints kept |
| `Accounts.FindByEmail` | server.js:46 | finds nothing exactly when no user has the email; otherwise a user of the table with that email |
| `Accounts.Login` | server.js:46 | 404 exactly when the email is missing or unknown; 500 exactly when the email is known and the password missing; 401 only for a user with that email whose hash does not match; success only with id, name and email of a user with that email whose hash matches |
| `Accounts.LoginDecision` | server.js:46 | with unique emails, a known email and a password log in exactly when that user's hash matches, answering the user's id, name and email, and give 401 otherwise |
| `Accounts.FindByEmailUnique` | server.js:29 | with unique emails, the lookup returns the one user holding the email |
| `Accounts.WrongPasswordRefused` | server.js:46 | a registered email with a password that does not match its hash gives 401 |
| `Accounts.DuplicateEmailRefused` | server.js:45 | registering an email a second time gives 409 and leaves the first user's row as it was |
| `Accounts.RegisterThenLogin` | server.js:45-46 | a user who registered logs in with the same password and gets back the id, name and email registration returned |
| `Accounts.SignUpPreservesConsistency` | server.js:29-30 | registration keeps every schema constraint |
| `Catalog.FindProduct` | server.js:44 | 500 exactly when the id does not fit INTEGER; 404 exactly when it fits and no product has it; otherwise that product's row, whose id is the one asked for |
| `Catalog.StoredProductIsFound` | server.js:44 | in a products table whose ids fit INTEGER, every stored product is found by its id |
| `History.ForUser` | server.js:96-101 | a row is selected exactly when it summarises an order of that user |
| `History.ForUserNoDuplicates` | server.js:96-101 | with `orders.id` a key, no two selected rows share an order id |
| `History.SortNewestFirst` | server.js:100 | the rows come out ordered by date, newest first, as a permutation of the input |
| `History.OrderHistory` | server.js:86-109 | 400 exactly when the user id is missing; 500 exactly when it does not fit INTEGER; otherwise the user's order summaries, each as often as selected, newest first |
| `History.HistoryHasExactlyTheUsersOrders` | server.js:96-104 | the history is answered exactly when the user id fits INTEGER, and then a row is in it exactly when it is the id, date and total of one of that user's orders |
| `History.DistinctIdsPermutation` | server.js:100 | reordering rows with distinct order ids keeps the ids distinct |
| `History.HistoryListsEachOrderOnce` | server.js:96-104 | with `orders.id` a key, the history lists each of the user's orders exactly once and no order id twice |
| `Server.Store.PlaceOrder` | server.js:48-80 | the checkout on the store object gives the response and new state of `Checkout.PlaceOrder` and keeps the constraints |
| `Server.Store.InsertOrder` | server.js:65-76 | from the order insert to COMMIT or ROLLBACK, the store object gives the response and new state of the checkout's remaining steps, given the first pass's total |
| `Server.Store.WriteLines` | server.js:67-70 | the second loop stops at the first rejected entry and reports why, drawing one item id per insert tried, the refused one included unless its quantity was out of range; when it goes through it yields exactly the item rows and the debited products |
| `Server.Store.Register` | server.js:45 | registration on the store object gives the response and new state of `Accounts.SignUp` and keeps the constraints |

## Left out

- `GET /api/products` (server.js:43) returns the whole table. It has no logic, and its row order is not defined.
- Express setup, CORS, the request logger and `app.listen` (server.js:3-16, 110-115) are HTTP plumbing.
- The connection pool and its client checkout and release are not modelled. `BEGIN`, `COMMIT` and `ROLLBACK` are modelled as working on copies of the tables.
- `createTables` and `database-setup.js` are schema setup I/O. The DDL is used only for the columns and constraints.
- bcrypt hashing and comparison are the parameters `hash` and `matches`. Salting and the one-way property are not modelled.
- Prices are stored as REAL, a floating-point type. The model uses exact integer cents, so rounding, and a total or client price too large for REAL, are not modelled.
- Concurrent checkouts are not modelled. This covers row locking, isolation, and two transactions overselling the same product.
- Storage and transport failures are not modelled: a lost connection, `pool.connect` failing, or any statement failing for reasons other than the constraints above. The all-or-nothing structure would cover them in the same way.
- Request values of the wrong JSON type are typed as integers in the model. Examples: a quantity given as a string or as a fraction such as 1.5, or a non-numeric `:id` or `?userId=` that PostgreSQL rejects with 500. Numeric ids outside the INTEGER range are modelled: they give 500 in the lookup, the history and the checkout.
- A product id outside the INTEGER range names no row in the model, so it fails the first loop as the code's failed query does. The id sequences are taken never to reach the INTEGER maximum.
- `Server.Store.InsertOrder` appends the order row to its copy of the orders table after the second loop rather than before it. Nothing in that loop reads the orders table. A NaN total only arises from an entry without a quantity, which always rolls back, so the row never needs to hold NaN.
- Nullable product columns, such as a NULL stock, are modelled as always present.
- `CREATE TABLE IF NOT EXISTS` keeps tables that already exist. A server restarted on a used database starts from their rows; `Tables.Initial` describes a first start, and any state satisfying `Tables.Consistent` describes the others.
- `order_date` is the parameter `now`, not a clock reading.
- Responses are modelled as the outcome and its fields. The JSON message strings are left out.
- No stock-adjustment endpoint exists in server.js, so there is nothing to model for it.
- `ON DELETE CASCADE` on order items is not modelled, because no handler deletes an order.
- `History.SortNewestFirst`: the database may return orders with equal dates in any order. The model fixes one order, and its contract promises only what the database does.
