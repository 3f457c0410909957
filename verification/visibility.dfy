/**
 * Only completed orders are visible to daily_sales, category_analysis,
 * weekly_sales_report and monthly_sales_summary: inserting an order whose
 * status is processing, cancelled or NULL, together with its items, leaves
 * all four views exactly as they were.
 */
module Visibility {
  import opened Relational
  import opened Schema
  import opened Views

  /** The snapshot after inserting order o and then its items. */
  function WithOrder(db: Db, o: Order, its: seq<OrderItem>): (db2: Db)
    ensures db2.users == db.users && db2.products == db.products
    ensures db2.orders == db.orders + [o] && db2.items == db.items + its
  {
    db.(orders := db.orders + [o], items := db.items + its)
  }

  /** Items whose sales join is unchanged produce the same sale lines. */
  lemma {:induction false} SaleLinesOfSame(db: Db, db2: Db, s: seq<OrderItem>)
    requires forall it :: it in s ==> JoinSale(db2, it) == JoinSale(db, it)
    ensures SaleLinesOf(db2, s) == SaleLinesOf(db, s)
    decreases |s|
  {
    if |s| > 0 {
      assert s[|s| - 1] in s;
      SaleLinesOfSame(db, db2, s[..|s| - 1]);
    }
  }

  /** Appending items that join to no completed order adds no sale line. */
  lemma {:induction false} SaleLinesOfNone(db: Db, s: seq<OrderItem>, t: seq<OrderItem>)
    requires forall it :: it in t ==> JoinSale(db, it).None?
    ensures SaleLinesOf(db, s + t) == SaleLinesOf(db, s)
    decreases |t|
  {
    if |t| > 0 {
      var u := s + t;
      assert u[..|u| - 1] == s + t[..|t| - 1];
      assert u[|u| - 1] == t[|t| - 1];
      assert t[|t| - 1] in t;
      SaleLinesOfNone(db, s, t[..|t| - 1]);
    } else {
      assert s + t == s;
    }
  }

  /** Items whose order join is unchanged produce the same order lines. */
  lemma {:induction false} OrderLinesOfSame(db: Db, db2: Db, s: seq<OrderItem>)
    requires forall it :: it in s ==> JoinOrder(db2, it) == JoinOrder(db, it)
    ensures OrderLinesOf(db2, s) == OrderLinesOf(db, s)
    decreases |s|
  {
    if |s| > 0 {
      assert s[|s| - 1] in s;
      OrderLinesOfSame(db, db2, s[..|s| - 1]);
    }
  }

  /** Appending items that join to no completed order adds no order line. */
  lemma {:induction false} OrderLinesOfNone(db: Db, s: seq<OrderItem>, t: seq<OrderItem>)
    requires forall it :: it in t ==> JoinOrder(db, it).None?
    ensures OrderLinesOf(db, s + t) == OrderLinesOf(db, s)
    decreases |t|
  {
    if |t| > 0 {
      var u := s + t;
      assert u[..|u| - 1] == s + t[..|t| - 1];
      assert u[|u| - 1] == t[|t| - 1];
      assert t[|t| - 1] in t;
      OrderLinesOfNone(db, s, t[..|t| - 1]);
    } else {
      assert s + t == s;
    }
  }

  /**
   * With a fresh, non-completed order o: every existing item joins exactly as
   * before, and every item of o joins to nothing.
   */
  lemma JoinsAfterOrder(db: Db, o: Order, its: seq<OrderItem>)
    requires WellFormed(db) && !IsCompleted(o)
    requires Lookup(db.orders, OrderKey, o.id).None?
    requires forall it :: it in its ==> it.orderId == Some(o.id)
    ensures forall it :: it in db.items ==> JoinSale(WithOrder(db, o, its), it) == JoinSale(db, it)
    ensures forall it :: it in db.items ==> JoinOrder(WithOrder(db, o, its), it) == JoinOrder(db, it)
    ensures forall it :: it in its ==> JoinSale(WithOrder(db, o, its), it).None?
    ensures forall it :: it in its ==> JoinOrder(WithOrder(db, o, its), it).None?
  {
    var db2 := WithOrder(db, o, its);
    forall k | k != o.id ensures Lookup(db2.orders, OrderKey, k) == Lookup(db.orders, OrderKey, k) {
      LookupAppend(db.orders, OrderKey, o, k);
    }
    LookupSomeAppend(db.orders, OrderKey, o, o.id);
    assert forall x :: x in db2.orders ==> x in db.orders || x == o;
    assert Lookup(db2.orders, OrderKey, o.id) == Some(o);
  }

  /** Inserting a processing, cancelled or NULL-status order and its items changes none of the four views. */
  lemma NonCompletedOrderInvisible(db: Db, o: Order, its: seq<OrderItem>)
    requires WellFormed(db) && !IsCompleted(o)
    requires Lookup(db.orders, OrderKey, o.id).None?
    requires forall it :: it in its ==> it.orderId == Some(o.id)
    ensures DailySales(WithOrder(db, o, its)) == DailySales(db)
    ensures CategoryAnalysis(WithOrder(db, o, its)) == CategoryAnalysis(db)
    ensures WeeklySalesReport(WithOrder(db, o, its)) == WeeklySalesReport(db)
    ensures MonthlySalesSummary(WithOrder(db, o, its)) == MonthlySalesSummary(db)
  {
    var db2 := WithOrder(db, o, its);
    JoinsAfterOrder(db, o, its);
    SaleLinesOfNone(db2, db.items, its);
    SaleLinesOfSame(db, db2, db.items);
    assert SaleLines(db2) == SaleLines(db);
    OrderLinesOfNone(db2, db.items, its);
    OrderLinesOfSame(db, db2, db.items);
    assert OrderLines(db2) == OrderLines(db);
    WhereAppendRejected(db.orders, o, IsCompleted);
    assert CompletedOrders(db2) == CompletedOrders(db);
  }
}
