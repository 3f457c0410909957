/**
 * The three revenue totals the consistency report compares agree when every
 * order's total_amount is the sum of its items' subtotals, and the monthly
 * summary instead counts each order's total once per item.
 */
module Agreement {
  import opened Relational
  import opened Schema
  import opened Views
  import opened ViewProperties

  function ItemSubtotal(it: OrderItem): int { it.subtotal }

  function OfOrder(oid: int): OrderItem -> bool
  {
    (it: OrderItem) => it.orderId == Some(oid)
  }

  /** The rows of order_items whose order_id is oid. */
  function ItemsOf(items: seq<OrderItem>, oid: int): (r: seq<OrderItem>)
    ensures forall it :: it in r <==> it in items && it.orderId == Some(oid)
  {
    Where(items, OfOrder(oid))
  }

  /** Every order's total_amount is the sum of its items' subtotals, as the seeding writes it. */
  ghost predicate TotalsConsistent(db: Db)
  {
    forall o :: o in db.orders ==> o.totalAmount == Sum(ItemsOf(db.items, o.id), ItemSubtotal)
  }

  /** No item of a completed order has a NULL product_id, so the join to products keeps it. */
  ghost predicate CompletedItemsHaveProducts(db: Db)
  {
    forall it, o :: it in db.items && o in db.orders && IsCompleted(o) && it.orderId == Some(o.id) ==>
      it.productId.Some?
  }

  /**
   * An item of completed order o joins to a sale line of o with its subtotal;
   * any other item that joins, joins to a line of another order.
   */
  lemma JoinSaleOfOrder(db: Db, it: OrderItem, o: Order)
    requires Lookup(db.orders, OrderKey, o.id) == Some(o) && IsCompleted(o)
    requires it.orderId == Some(o.id) ==> it.productId.Some? && HasProduct(db, it.productId.value)
    ensures it.orderId == Some(o.id) ==> JoinSale(db, it).Some?
    ensures JoinSale(db, it).Some? ==>
      && (OrderIdOf(JoinSale(db, it).value) == Some(o.id) <==> it.orderId == Some(o.id))
      && LineSubtotal(JoinSale(db, it).value) == ItemSubtotal(it)
  {
  }

  /** The sales join of a table is the join of all but its last row, plus what the last row joins to. */
  lemma SaleLinesOfLast(db: Db, s: seq<OrderItem>)
    requires |s| > 0
    ensures JoinSale(db, s[|s| - 1]).None? ==> SaleLinesOf(db, s) == SaleLinesOf(db, s[..|s| - 1])
    ensures JoinSale(db, s[|s| - 1]).Some? ==>
      SaleLinesOf(db, s) == SaleLinesOf(db, s[..|s| - 1]) + [JoinSale(db, s[|s| - 1]).value]
  {
  }

  /** The sale lines of one completed order carry exactly the subtotals of that order's items. */
  lemma {:induction false} OrderSaleLines(db: Db, s: seq<OrderItem>, o: Order)
    requires Lookup(db.orders, OrderKey, o.id) == Some(o) && IsCompleted(o)
    requires forall it :: it in s && it.orderId == Some(o.id) ==>
      it.productId.Some? && HasProduct(db, it.productId.value)
    ensures Sum(Group(SaleLinesOf(db, s), OrderIdOf, Some(o.id)), LineSubtotal) == Sum(ItemsOf(s, o.id), ItemSubtotal)
    decreases |s|
  {
    if |s| > 0 {
      var p := s[..|s| - 1];
      var it := s[|s| - 1];
      assert forall x :: x in p ==> x in s;
      OrderSaleLines(db, p, o);
      var rest := SaleLinesOf(db, p);
      var g := Group(rest, OrderIdOf, Some(o.id));
      var w := ItemsOf(p, o.id);
      assert Sum(g, LineSubtotal) == Sum(w, ItemSubtotal);
      JoinSaleOfOrder(db, it, o);
      SaleLinesOfLast(db, s);
      var j := JoinSale(db, it);
      assert ItemsOf(s, o.id) == w + (if it.orderId == Some(o.id) then [it] else []);
      if it.orderId == Some(o.id) {
        var l := j.value;
        assert SaleLinesOf(db, s) == rest + [l];
        GroupAppend(rest, l, OrderIdOf, Some(o.id));
        assert Group(SaleLinesOf(db, s), OrderIdOf, Some(o.id)) == g + [l];
        SumAppend(g, l, LineSubtotal);
        SumAppend(w, it, ItemSubtotal);
      } else if j.Some? {
        var l := j.value;
        assert SaleLinesOf(db, s) == rest + [l];
        GroupAppend(rest, l, OrderIdOf, Some(o.id));
        assert Group(SaleLinesOf(db, s), OrderIdOf, Some(o.id)) == g;
        assert ItemsOf(s, o.id) == w;
      } else {
        assert SaleLinesOf(db, s) == rest;
        assert ItemsOf(s, o.id) == w;
      }
    }
  }

  /** With consistent totals, the completed orders' total equals the completed sale lines' subtotals. */
  lemma CompletedRevenueIsSaleRevenue(db: Db)
    requires WellFormed(db) && TotalsConsistent(db) && CompletedItemsHaveProducts(db)
    ensures Sum(CompletedOrders(db), TotalAmount) == Sum(SaleLines(db), LineSubtotal)
  {
    var os, ls := CompletedOrders(db), SaleLines(db);
    var ks := seq(|os|, i requires 0 <= i < |os| => SomeOrderId(os[i]));
    WhereIncreasing(db.orders, OrderKey, IsCompleted);
    assert Distinct(ks);
    forall l | l in ls ensures OrderIdOf(l) in ks {
      assert l.order in os;
      var i :| 0 <= i < |os| && os[i] == l.order;
      assert ks[i] == OrderIdOf(l);
    }
    forall i | 0 <= i < |ks| ensures TotalAmount(os[i]) == Sum(Group(ls, OrderIdOf, ks[i]), LineSubtotal) {
      assert os[i] in os;
      LookupFinds(db.orders, OrderKey, os[i]);
      OrderSaleLines(db, db.items, os[i]);
    }
    SumRowsOverGroups(os, TotalAmount, ls, OrderIdOf, ks, LineSubtotal);
    PartitionSumCover(ls, OrderIdOf, ks, LineSubtotal);
  }

  /**
   * The completed-orders total, SUM(total_revenue) of category_analysis, of
   * daily_sales and SUM(revenue_in_category) of weekly_sales_report are equal.
   */
  lemma RevenueAgreement(db: Db)
    requires WellFormed(db) && TotalsConsistent(db) && CompletedItemsHaveProducts(db)
    ensures Sum(DailySales(db), DailyRevenue) == Sum(CompletedOrders(db), TotalAmount)
    ensures Sum(CategoryAnalysis(db), CategoryRevenue) == Sum(CompletedOrders(db), TotalAmount)
    ensures Sum(WeeklySalesReport(db), WeeklyRevenue) == Sum(CompletedOrders(db), TotalAmount)
  {
    CompletedRevenueIsSaleRevenue(db);
    DailyRevenuePartition(db);
    CategoryRevenuePartition(db);
    WeeklyRevenuePartition(db);
  }

  // ---------------------------------------------------------------------------
  // monthly_sales_summary counts an order's total once per item
  // ---------------------------------------------------------------------------

  function MonthlyRevenue(r: MonthlyRow): int { r.totalRevenue }

  /** total_amount weighted by the order's number of item rows: what the orders-items join sums. */
  function ItemWeightedTotal(db: Db): Order -> int
  {
    (o: Order) => |ItemsOf(db.items, o.id)| * o.totalAmount
  }

  lemma JoinOrderOfOrder(db: Db, it: OrderItem, o: Order)
    requires Lookup(db.orders, OrderKey, o.id) == Some(o) && IsCompleted(o)
    ensures it.orderId == Some(o.id) ==> JoinOrder(db, it) == Some(OrderLine(o, it))
    ensures JoinOrder(db, it).Some? ==> (OLineOrderId(JoinOrder(db, it).value) == Some(o.id) <==> it.orderId == Some(o.id))
  {
  }

  lemma OrderLinesOfLast(db: Db, s: seq<OrderItem>)
    requires |s| > 0
    ensures JoinOrder(db, s[|s| - 1]).None? ==> OrderLinesOf(db, s) == OrderLinesOf(db, s[..|s| - 1])
    ensures JoinOrder(db, s[|s| - 1]).Some? ==>
      OrderLinesOf(db, s) == OrderLinesOf(db, s[..|s| - 1]) + [JoinOrder(db, s[|s| - 1]).value]
  {
  }

  /** A completed order has one order line per item row, each carrying the order's full total. */
  lemma {:induction false} OrderOrderLines(db: Db, s: seq<OrderItem>, o: Order)
    requires Lookup(db.orders, OrderKey, o.id) == Some(o) && IsCompleted(o)
    ensures |Group(OrderLinesOf(db, s), OLineOrderId, Some(o.id))| == |ItemsOf(s, o.id)|
    ensures forall l :: l in Group(OrderLinesOf(db, s), OLineOrderId, Some(o.id)) ==> OLineTotal(l) == o.totalAmount
    decreases |s|
  {
    if |s| > 0 {
      var p := s[..|s| - 1];
      var it := s[|s| - 1];
      OrderOrderLines(db, p, o);
      var rest := OrderLinesOf(db, p);
      var g := Group(rest, OLineOrderId, Some(o.id));
      var w := ItemsOf(p, o.id);
      JoinOrderOfOrder(db, it, o);
      OrderLinesOfLast(db, s);
      var j := JoinOrder(db, it);
      assert ItemsOf(s, o.id) == w + (if it.orderId == Some(o.id) then [it] else []);
      if it.orderId == Some(o.id) {
        var l := j.value;
        assert OrderLinesOf(db, s) == rest + [l];
        GroupAppend(rest, l, OLineOrderId, Some(o.id));
        assert Group(OrderLinesOf(db, s), OLineOrderId, Some(o.id)) == g + [l];
      } else if j.Some? {
        var l := j.value;
        assert OrderLinesOf(db, s) == rest + [l];
        GroupAppend(rest, l, OLineOrderId, Some(o.id));
        assert Group(OrderLinesOf(db, s), OLineOrderId, Some(o.id)) == g;
        assert ItemsOf(s, o.id) == w;
      } else {
        assert OrderLinesOf(db, s) == rest;
        assert ItemsOf(s, o.id) == w;
      }
    }
  }

  /** SUM(total_revenue) over monthly_sales_summary is the total of the completed order lines. */
  lemma MonthlyRevenuePartition(db: Db)
    ensures Sum(MonthlySalesSummary(db), MonthlyRevenue) == Sum(OrderLines(db), OLineTotal)
  {
    var ls, ks, rows := OrderLines(db), MonthlyKeys(db), MonthlySalesSummary(db);
    forall i | 0 <= i < |ks| ensures MonthlyRevenue(rows[i]) == Sum(Group(ls, MonthKeyOf, ks[i]), OLineTotal) {
      GroupOfKey(ls, MonthKeyOf, ks[i]);
      assert rows[i] == MonthlyAggregate(ks[i], Group(ls, MonthKeyOf, ks[i]));
    }
    SumRowsOverGroups(rows, MonthlyRevenue, ls, MonthKeyOf, ks, OLineTotal);
    PartitionSum(ls, MonthKeyOf, OLineTotal);
  }

  /**
   * SUM(total_revenue) over monthly_sales_summary adds each completed order's
   * total_amount once per item row of the order, not once per order.
   */
  lemma MonthlyRevenueCountsItems(db: Db)
    requires WellFormed(db)
    ensures Sum(MonthlySalesSummary(db), MonthlyRevenue) == Sum(CompletedOrders(db), ItemWeightedTotal(db))
  {
    var os, ls := CompletedOrders(db), OrderLines(db);
    var ks := seq(|os|, i requires 0 <= i < |os| => SomeOrderId(os[i]));
    WhereIncreasing(db.orders, OrderKey, IsCompleted);
    assert Distinct(ks);
    forall l | l in ls ensures OLineOrderId(l) in ks {
      assert l.order in os;
      var i :| 0 <= i < |os| && os[i] == l.order;
      assert ks[i] == OLineOrderId(l);
    }
    forall i | 0 <= i < |ks| ensures ItemWeightedTotal(db)(os[i]) == Sum(Group(ls, OLineOrderId, ks[i]), OLineTotal) {
      assert os[i] in os;
      LookupFinds(db.orders, OrderKey, os[i]);
      OrderOrderLines(db, db.items, os[i]);
      SumConstant(Group(ls, OLineOrderId, ks[i]), OLineTotal, os[i].totalAmount);
    }
    SumRowsOverGroups(os, ItemWeightedTotal(db), ls, OLineOrderId, ks, OLineTotal);
    PartitionSumCover(ls, OLineOrderId, ks, OLineTotal);
    MonthlyRevenuePartition(db);
  }
}
