/**
 * A user's order history (`GET /api/orders?userId=`, server.js:86-109):
 * the id, date and total of each of the user's orders, newest first.
 */
module History {
  import opened Wrappers
  import opened Tables

  /** One row of the response: `SELECT id, order_date, total_price`. */
  datatype OrderSummary = OrderSummary(id: int, orderDate: int, totalPrice: int)

  datatype HistoryOutcome =
    | Orders(rows: seq<OrderSummary>)  // 200
    | MissingUserId                    // 400
    | HistoryError                     // 500: the user id parameter does not fit INTEGER
  {
    function Status(): int {
      match this
      case Orders(_) => 200
      case MissingUserId => 400
      case HistoryError => 500
    }
  }

  function Summary(o: Order): OrderSummary {
    OrderSummary(o.id, o.orderDate, o.totalPrice)
  }

  /** `ORDER BY order_date DESC`: no row is newer than one before it. */
  predicate NewestFirst(rows: seq<OrderSummary>) {
    forall i, j :: 0 <= i < j < |rows| ==> rows[i].orderDate >= rows[j].orderDate
  }

  /** `WHERE user_id = $1`, projected to the three selected columns, in table order. */
  function ForUser(orders: seq<Order>, userId: int): (r: seq<OrderSummary>)
    ensures forall s :: s in r <==> exists o :: o in orders && o.userId == userId && Summary(o) == s
    ensures |r| <= |orders|
  {
    if orders == [] then []
    else
      var rest := ForUser(orders[1..], userId);
      assert forall o :: o in orders <==> o == orders[0] || o in orders[1..] by {
        assert orders == [orders[0]] + orders[1..];
      }
      if orders[0].userId == userId then [Summary(orders[0])] + rest else rest
  }

  /** Place `s` into rows that are newest first, before the first row not newer than it. */
  function Insert(s: OrderSummary, rows: seq<OrderSummary>): (r: seq<OrderSummary>)
    requires NewestFirst(rows)
    ensures |r| == |rows| + 1
    ensures r[0] == s || (|rows| > 0 && r[0] == rows[0])
    ensures multiset(r) == multiset(rows) + multiset{s}
    ensures NewestFirst(r)
  {
    if rows == [] || s.orderDate >= rows[0].orderDate then
      [s] + rows
    else
      var rest := Insert(s, rows[1..]);
      assert rows == [rows[0]] + rows[1..];
      NewestFirstCons(rows[0], rest);
      [rows[0]] + rest
  }

  /** A row no older than the head of newest-first rows can go in front of them. */
  lemma NewestFirstCons(s: OrderSummary, rows: seq<OrderSummary>)
    requires NewestFirst(rows)
    requires rows != [] ==> s.orderDate >= rows[0].orderDate
    ensures NewestFirst([s] + rows)
  {
  }

  /** The rows sorted newest first (insertion sort; rows with equal dates in any order). */
  function SortNewestFirst(rows: seq<OrderSummary>): (r: seq<OrderSummary>)
    ensures NewestFirst(r)
    ensures multiset(r) == multiset(rows)
  {
    if rows == [] then []
    else
      assert rows == [rows[0]] + rows[1..];
      Insert(rows[0], SortNewestFirst(rows[1..]))
  }

  /**
   * The response to one `GET /api/orders`: 400 without a user id; 500 when
   * the id, bound as an INTEGER parameter, does not fit; otherwise exactly
   * that user's orders, each as often as selected, newest first.
   */
  function OrderHistory(orders: seq<Order>, userId: Option<int>): (r: HistoryOutcome)
    ensures r == MissingUserId <==> userId.None?
    ensures r == HistoryError <==> userId.Some? && !IsInt32(userId.value)
    ensures r.Orders? ==> NewestFirst(r.rows)
    ensures r.Orders? ==> multiset(r.rows) == multiset(ForUser(orders, userId.value))
  {
    if userId.None? then MissingUserId
    else if !IsInt32(userId.value) then HistoryError
    else Orders(SortNewestFirst(ForUser(orders, userId.value)))
  }

  /** A row is in a user's history exactly when it summarises one of that user's orders. */
  lemma HistoryHasExactlyTheUsersOrders(orders: seq<Order>, userId: int, s: OrderSummary)
    ensures OrderHistory(orders, Some(userId)).Orders? <==> IsInt32(userId)
    ensures var r := OrderHistory(orders, Some(userId));
      r.Orders? ==> (s in r.rows <==> exists o :: o in orders && o.userId == userId && Summary(o) == s)
  {
    var r := OrderHistory(orders, Some(userId));
    if r.Orders? {
      assert s in r.rows <==> s in multiset(r.rows);
      assert s in ForUser(orders, userId) <==> s in multiset(ForUser(orders, userId));
    }
  }

  /** No two rows carry the same order id. */
  predicate DistinctIds(rows: seq<OrderSummary>) {
    forall i, j :: 0 <= i < j < |rows| ==> rows[i].id != rows[j].id
  }

  /** With `orders.id` a key, the selection lists each order at most once. */
  lemma {:induction false} ForUserNoDuplicates(orders: seq<Order>, userId: int)
    requires forall i, j :: 0 <= i < j < |orders| ==> orders[i].id != orders[j].id
    ensures DistinctIds(ForUser(orders, userId))
  {
    if orders != [] {
      var rest := ForUser(orders[1..], userId);
      ForUserNoDuplicates(orders[1..], userId);
      if orders[0].userId == userId {
        forall k | 0 <= k < |rest|
          ensures rest[k].id != orders[0].id
        {
          assert rest[k] in rest;
          var o :| o in orders[1..] && o.userId == userId && Summary(o) == rest[k];
          var m :| 0 <= m < |orders[1..]| && orders[1..][m] == o;
          assert orders[m + 1] == o;
        }
        assert ForUser(orders, userId) == [Summary(orders[0])] + rest;
      }
    }
  }

  /** Rows with distinct ids hold each row at most once. */
  lemma {:induction false} DistinctIdsCountAtMostOne(rows: seq<OrderSummary>, s: OrderSummary)
    requires DistinctIds(rows)
    ensures multiset(rows)[s] <= 1
  {
    if rows != [] {
      var n := |rows| - 1;
      assert rows == rows[..n] + [rows[n]];
      DistinctIdsCountAtMostOne(rows[..n], s);
      if rows[n] == s {
        forall k | 0 <= k < n
          ensures rows[..n][k] != s
        {
          assert rows[k].id != rows[n].id;
        }
        assert s !in rows[..n];
      }
    }
  }

  /** Reordering rows keeps their ids distinct. */
  lemma DistinctIdsPermutation(a: seq<OrderSummary>, b: seq<OrderSummary>)
    requires multiset(a) == multiset(b) && DistinctIds(a)
    ensures DistinctIds(b)
  {
    forall i, j | 0 <= i < j < |b|
      ensures b[i].id != b[j].id
    {
      if b[i].id == b[j].id {
        if b[i] == b[j] {
          assert b == b[..j] + b[j..];
          assert b[i] in b[..j] && b[j..][0] == b[j];
          assert multiset(b)[b[i]] == multiset(b[..j])[b[i]] + multiset(b[j..])[b[i]];
          DistinctIdsCountAtMostOne(a, b[i]);
        } else {
          assert b[i] in multiset(b) && b[j] in multiset(b);
          var p :| 0 <= p < |a| && a[p] == b[i];
        }
      }
    }
  }

  /**
   * With `orders.id` a key, a user's history lists each of that user's orders
   * exactly once, and no order id twice.
   */
  lemma HistoryListsEachOrderOnce(orders: seq<Order>, userId: int)
    requires forall i, j :: 0 <= i < j < |orders| ==> orders[i].id != orders[j].id
    ensures var r := OrderHistory(orders, Some(userId));
      r.Orders? ==>
        && DistinctIds(r.rows)
        && forall o :: o in orders && o.userId == userId ==> multiset(r.rows)[Summary(o)] == 1
  {
    var r := OrderHistory(orders, Some(userId));
    if r.Orders? {
      var selected := ForUser(orders, userId);
      ForUserNoDuplicates(orders, userId);
      DistinctIdsPermutation(selected, r.rows);
      forall o | o in orders && o.userId == userId
        ensures multiset(r.rows)[Summary(o)] == 1
      {
        assert Summary(o) in selected;
        DistinctIdsCountAtMostOne(selected, Summary(o));
      }
    }
  }
}
