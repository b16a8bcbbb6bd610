/**
 * The cart a client posts to `/api/orders` and what the checkout computes
 * from it: the per-entry stock check, the server-priced total, the stock
 * debits and the order-item rows.
 */
module Cart {
  import opened Wrappers
  import opened Tables

  /**
   * One entry of the request's `items` array: the product id, the quantity
   * and the unit price the client claims. The quantity and the price may
   * be absent; JSON numbers are taken as exact integers.
   */
  datatype CartItem = CartItem(productId: int, quantity: Option<int>, clientPrice: Option<int>)

  /**
   * The first loop's test on one entry (server.js:62): the product row
   * exists and the quantity does not exceed its stock. An absent quantity
   * passes, since `undefined > stock` is false.
   */
  predicate Available(products: map<int, Product>, item: CartItem) {
    item.productId in products &&
    (item.quantity.None? || item.quantity.value <= products[item.productId].stock)
  }

  /** Every entry names an existing product. */
  predicate AllKnown(products: map<int, Product>, cart: seq<CartItem>) {
    forall i :: 0 <= i < |cart| ==> cart[i].productId in products
  }

  /** Every entry carries a quantity. */
  predicate AllQuantified(cart: seq<CartItem>) {
    forall i :: 0 <= i < |cart| ==> cart[i].quantity.Some?
  }

  /**
   * Every entry makes an order-item row the INSERT accepts: a quantity that
   * fits INTEGER and a client price, so no NOT NULL column is left empty.
   */
  predicate AllInsertable(cart: seq<CartItem>) {
    forall i :: 0 <= i < |cart| ==>
      cart[i].quantity.Some? && IsInt32(cart[i].quantity.value) && cart[i].clientPrice.Some?
  }

  /** No product id occurs twice in the cart. */
  predicate DistinctProducts(cart: seq<CartItem>) {
    forall i, j :: 0 <= i < j < |cart| ==> cart[i].productId != cart[j].productId
  }

  /** Index of the entry that makes the first loop throw, or |cart| when none does. */
  function FirstUnavailable(products: map<int, Product>, cart: seq<CartItem>): (k: nat)
    ensures k <= |cart|
    ensures forall j :: 0 <= j < k ==> Available(products, cart[j])
    ensures k < |cart| ==> !Available(products, cart[k])
  {
    if cart == [] then 0
    else if !Available(products, cart[0]) then 0
    else 1 + FirstUnavailable(products, cart[1..])
  }

  /** What one entry adds to the order total: the server's price times the quantity. */
  function Cost(products: map<int, Product>, item: CartItem): int
    requires item.productId in products && item.quantity.Some?
  {
    products[item.productId].price * item.quantity.value
  }

  /** The order total the checkout accumulates, entry by entry, from server-side prices. */
  function Total(products: map<int, Product>, cart: seq<CartItem>): int
    requires AllKnown(products, cart) && AllQuantified(cart)
  {
    if cart == [] then 0
    else Total(products, cart[..|cart| - 1]) + Cost(products, cart[|cart| - 1])
  }

  /** The quantity the cart asks of product `pid`, summed over every entry naming it. */
  function QuantityOf(cart: seq<CartItem>, pid: int): int
    requires AllQuantified(cart)
  {
    if cart == [] then 0
    else
      var last := cart[|cart| - 1];
      QuantityOf(cart[..|cart| - 1], pid) + (if last.productId == pid then last.quantity.value else 0)
  }

  /**
   * The products table after `UPDATE products SET stock = stock - q WHERE id = p`
   * for each entry in order; an id with no row matches nothing.
   */
  function Debit(products: map<int, Product>, cart: seq<CartItem>): map<int, Product>
    requires AllQuantified(cart)
  {
    if cart == [] then products
    else
      var before := Debit(products, cart[..|cart| - 1]);
      var item := cart[|cart| - 1];
      if item.productId in before then
        before[item.productId := before[item.productId].(stock := before[item.productId].stock - item.quantity.value)]
      else before
  }

  /** How the second loop's two statements for one entry can fail (server.js:68-69). */
  datatype Rejection =
    | QuantityOutOfRange  // the quantity parameter does not fit INTEGER: refused before the row is built
    | NullColumn          // `quantity` or `price_per_unit` would be NULL (NOT NULL, server.js:31)
    | StockOutOfRange     // `stock - quantity` does not fit INTEGER

  /** The INSERT of a refused row drew its item id only if the row was built. */
  predicate DrawsItemId(why: Rejection) {
    why != QuantityOutOfRange
  }

  /**
   * Whether, and how, the statements for `item` fail when the products
   * table has been debited to `products`: first the insert's parameters are
   * bound, then its NOT NULL columns are checked, then the stock update runs.
   */
  function Rejects(products: map<int, Product>, item: CartItem): Option<Rejection> {
    if item.quantity.Some? && !IsInt32(item.quantity.value) then Some(QuantityOutOfRange)
    else if item.quantity.None? || item.clientPrice.None? then Some(NullColumn)
    else if item.productId in products && !IsInt32(products[item.productId].stock - item.quantity.value) then
      Some(StockOutOfRange)
    else None
  }

  /**
   * The second loop gets through `cart`: no entry is rejected, each judged
   * against the stock the entries before it left.
   */
  predicate AllPass(products: map<int, Product>, cart: seq<CartItem>): (ok: bool)
    ensures ok ==> AllInsertable(cart)
  {
    cart == [] ||
    (AllPass(products, cart[..|cart| - 1]) &&
     Rejects(Debit(products, cart[..|cart| - 1]), cart[|cart| - 1]).None?)
  }

  /** Index of the entry at which the second loop fails; |cart| when none does. */
  function FirstRejected(products: map<int, Product>, cart: seq<CartItem>): (k: nat)
    ensures k <= |cart| && AllPass(products, cart[..k])
    ensures k < |cart| ==> Rejects(Debit(products, cart[..k]), cart[k]).Some?
    ensures k == |cart| <==> AllPass(products, cart)
  {
    if cart == [] then 0
    else
      var n := |cart| - 1;
      var k := FirstRejected(products, cart[..n]);
      assert cart[..n][..k] == cart[..k];
      if k < n then k
      else if Rejects(Debit(products, cart[..n]), cart[n]).Some? then n
      else
        assert cart[..|cart|] == cart;
        |cart|
  }

  /** Every prefix of a cart the second loop gets through is got through, entry by entry. */
  lemma {:induction false} AllPassPrefix(products: map<int, Product>, cart: seq<CartItem>, j: nat)
    requires AllPass(products, cart) && j <= |cart|
    ensures AllPass(products, cart[..j])
    ensures j < |cart| ==> Rejects(Debit(products, cart[..j]), cart[j]).None?
  {
    var n := |cart| - 1;
    if j < |cart| {
      assert cart[..n][..j] == cart[..j];
      if j < n {
        AllPassPrefix(products, cart[..n], j);
      }
    } else {
      assert cart[..j] == cart;
    }
  }

  /** An entry that is rejected after every earlier one got through is the first rejected. */
  lemma FirstRejectedAt(products: map<int, Product>, cart: seq<CartItem>, k: nat)
    requires k < |cart| && AllPass(products, cart[..k])
    requires Rejects(Debit(products, cart[..k]), cart[k]).Some?
    ensures FirstRejected(products, cart) == k
  {
    var first := FirstRejected(products, cart);
    if first < k {
      assert cart[..k][..first] == cart[..first];
      AllPassPrefix(products, cart[..k], first);
    } else if first > k {
      assert cart[..first][..k] == cart[..k];
      AllPassPrefix(products, cart[..first], k);
    }
  }

  /** The order-item rows the second loop inserts, ids drawn from `firstId` on. */
  function LineItems(orderId: int, firstId: int, cart: seq<CartItem>): seq<OrderItem>
    requires AllInsertable(cart)
  {
    if cart == [] then []
    else
      var item := cart[|cart| - 1];
      LineItems(orderId, firstId, cart[..|cart| - 1])
        + [OrderItem(firstId + |cart| - 1, orderId, item.productId, item.quantity.value, item.clientPrice.value)]
  }

  /** The sum of `price_per_unit * quantity` over some order-item rows. */
  function LineTotal(lines: seq<OrderItem>): int {
    if lines == [] then 0
    else LineTotal(lines[..|lines| - 1]) + lines[|lines| - 1].pricePerUnit * lines[|lines| - 1].quantity
  }

  /**
   * The first loop of the checkout (server.js:58-64): read each entry's
   * product, stop at the first that is missing or short of stock, and add up
   * the server-side prices. Returns the index it stopped at (|cart| when it
   * went through) and the running total, `None` once an absent quantity has
   * made it NaN.
   */
  method SumServerPrices(products: map<int, Product>, cart: seq<CartItem>) returns (k: nat, totalPrice: Option<int>)
    ensures k == FirstUnavailable(products, cart)
    ensures k == |cart| ==> (totalPrice.Some? <==> AllQuantified(cart))
    ensures k == |cart| && AllQuantified(cart) ==> AllKnown(products, cart) && totalPrice == Some(Total(products, cart))
  {
    totalPrice := Some(0);
    k := 0;
    while k < |cart|
      invariant 0 <= k <= |cart|
      invariant forall j :: 0 <= j < k ==> Available(products, cart[j])
      invariant totalPrice.Some? <==> AllQuantified(cart[..k])
      invariant totalPrice.Some? ==> totalPrice.value == Total(products, cart[..k])
    {
      var item := cart[k];
      if item.productId !in products || (item.quantity.Some? && item.quantity.value > products[item.productId].stock) {
        return;
      }
      assert cart[..k + 1][..k] == cart[..k];
      if totalPrice.Some? && item.quantity.Some? {
        totalPrice := Some(totalPrice.value + products[item.productId].price * item.quantity.value);
      } else {
        totalPrice := None;  // NaN stays NaN
      }
      k := k + 1;
    }
    assert cart[..k] == cart;
  }

  /** The client's prices never reach the total: carts agreeing on products and quantities cost the same. */
  lemma {:induction false} TotalIgnoresClientPrice(products: map<int, Product>, a: seq<CartItem>, b: seq<CartItem>)
    requires |a| == |b|
    requires forall i :: 0 <= i < |a| ==> a[i].productId == b[i].productId && a[i].quantity == b[i].quantity
    requires AllKnown(products, a) && AllQuantified(a)
    ensures AllKnown(products, b) && AllQuantified(b) && Total(products, a) == Total(products, b)
  {
    if a != [] {
      var n := |a| - 1;
      TotalIgnoresClientPrice(products, a[..n], b[..n]);
    }
  }

  /** Each product's stock drops by what the cart asks of it; nothing else about any row changes. */
  lemma {:induction false} DebitEffect(products: map<int, Product>, cart: seq<CartItem>)
    requires AllQuantified(cart)
    ensures Debit(products, cart).Keys == products.Keys
    ensures forall pid :: pid in products ==>
      Debit(products, cart)[pid] == products[pid].(stock := products[pid].stock - QuantityOf(cart, pid))
  {
    if cart != [] {
      DebitEffect(products, cart[..|cart| - 1]);
    }
  }

  /**
   * When no entry's statements failed, every stock the updates leave still
   * fits INTEGER: each update was checked against the stock it produced.
   */
  lemma {:induction false} DebitStaysInRange(products: map<int, Product>, cart: seq<CartItem>)
    requires IntegersInRange(products)
    requires AllPass(products, cart)
    ensures IntegersInRange(Debit(products, cart))
  {
    if cart != [] {
      DebitStaysInRange(products, cart[..|cart| - 1]);
    }
  }

  /** With distinct product ids, the quantity asked of an entry's product is that entry's quantity. */
  lemma {:induction false} QuantityOfDistinct(cart: seq<CartItem>, i: nat)
    requires AllQuantified(cart) && DistinctProducts(cart)
    requires i < |cart|
    ensures QuantityOf(cart, cart[i].productId) == cart[i].quantity.value
  {
    var n := |cart| - 1;
    if i < n {
      QuantityOfDistinct(cart[..n], i);
    } else {
      QuantityOfAbsent(cart[..n], cart[i].productId);
    }
  }

  /** A product no entry names is asked for nothing. */
  lemma {:induction false} QuantityOfAbsent(cart: seq<CartItem>, pid: int)
    requires AllQuantified(cart)
    requires forall j :: 0 <= j < |cart| ==> cart[j].productId != pid
    ensures QuantityOf(cart, pid) == 0
  {
    if cart != [] {
      QuantityOfAbsent(cart[..|cart| - 1], pid);
    }
  }

  /**
   * When every entry passed the stock check and no product id repeats,
   * no product the cart names ends up with negative stock.
   */
  lemma DistinctCartKeepsStock(products: map<int, Product>, cart: seq<CartItem>)
    requires AllQuantified(cart)
    requires forall j :: 0 <= j < |cart| ==> Available(products, cart[j])
    requires DistinctProducts(cart)
    ensures forall i :: 0 <= i < |cart| ==>
      cart[i].productId in Debit(products, cart) && Debit(products, cart)[cart[i].productId].stock >= 0
  {
    DebitEffect(products, cart);
    forall i | 0 <= i < |cart|
      ensures Debit(products, cart)[cart[i].productId].stock >= 0
    {
      QuantityOfDistinct(cart, i);
    }
  }

  /** Row `i` of the inserted order items records entry `i` of the cart and the client's price. */
  lemma {:induction false} LineItemsAt(orderId: int, firstId: int, cart: seq<CartItem>)
    requires AllInsertable(cart)
    ensures |LineItems(orderId, firstId, cart)| == |cart|
    ensures forall i :: 0 <= i < |cart| ==>
      LineItems(orderId, firstId, cart)[i] ==
        OrderItem(firstId + i, orderId, cart[i].productId, cart[i].quantity.value, cart[i].clientPrice.value)
  {
    if cart != [] {
      LineItemsAt(orderId, firstId, cart[..|cart| - 1]);
    }
  }

  /**
   * The recorded line items add up to the order total when the client's
   * prices are the server's prices; the code does not enforce that they are.
   */
  lemma {:induction false} LineTotalMatchesWhenPricesAgree(products: map<int, Product>, orderId: int, firstId: int, cart: seq<CartItem>)
    requires AllInsertable(cart)
    requires forall i :: 0 <= i < |cart| ==>
      cart[i].productId in products && cart[i].clientPrice == Some(products[cart[i].productId].price)
    ensures AllKnown(products, cart) && AllQuantified(cart)
    ensures LineTotal(LineItems(orderId, firstId, cart)) == Total(products, cart)
  {
    if cart != [] {
      var n := |cart| - 1;
      LineTotalMatchesWhenPricesAgree(products, orderId, firstId, cart[..n]);
      var lines := LineItems(orderId, firstId, cart);
      assert lines[..|lines| - 1] == LineItems(orderId, firstId, cart[..n]);
    }
  }
}
