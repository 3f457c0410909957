/**
 * What the view definitions guarantee: every grouped view is keyed and
 * sparse, grouping partitions revenue, the averages are rounded quotients,
 * the date keys are the right Mondays and first days of the month, only
 * completed orders are visible, and the quirks of the definitions as they
 * are written.
 */
module ViewProperties {
  import opened Relational
  import opened Schema
  import opened Calendar
  import opened Views

  // ---------------------------------------------------------------------------
  // Keyed and sparse
  // ---------------------------------------------------------------------------

  /**
   * weekly_sales_report has exactly one row per (week, category) pair with a
   * completed sale, no other rows, and no row with orders_in_category = 0.
   */
  lemma WeeklyReportKeyed(db: Db)
    ensures forall l :: l in SaleLines(db) ==>
      exists r :: r in WeeklySalesReport(db) && WeeklyKeyOf(r) == WeekKey(l)
    ensures forall r :: r in WeeklySalesReport(db) ==>
      exists l :: l in SaleLines(db) && WeekKey(l) == WeeklyKeyOf(r)
    ensures forall i, j :: 0 <= i < j < |WeeklySalesReport(db)| ==>
      WeeklyKeyOf(WeeklySalesReport(db)[i]) != WeeklyKeyOf(WeeklySalesReport(db)[j])
    ensures forall r :: r in WeeklySalesReport(db) ==> r.ordersInCategory > 0
  {
    var ls, ks, rows := SaleLines(db), WeeklyKeys(db), WeeklySalesReport(db);
    forall l | l in ls ensures exists r :: r in rows && WeeklyKeyOf(r) == WeekKey(l) {
      var i :| 0 <= i < |ks| && ks[i] == WeekKey(l);
      assert rows[i] in rows;
    }
    forall r | r in rows ensures r.ordersInCategory > 0 && exists l :: l in ls && WeekKey(l) == WeeklyKeyOf(r) {
      var i :| 0 <= i < |rows| && rows[i] == r;
      GroupOfKey(ls, WeekKey, ks[i]);
      var g := Group(ls, WeekKey, ks[i]);
      assert r == WeeklyAggregate(ks[i], g);
      assert g[0] in g && OrderIdOf(g[0]).Some?;
    }
  }

  /** daily_sales has exactly one row per day with a completed order, and every row counts one. */
  lemma DailySalesKeyed(db: Db)
    ensures forall o :: o in CompletedOrders(db) ==>
      exists r :: r in DailySales(db) && r.saleDate == SaleDay(o)
    ensures forall r :: r in DailySales(db) ==>
      exists o :: o in CompletedOrders(db) && SaleDay(o) == r.saleDate
    ensures forall i, j :: 0 <= i < j < |DailySales(db)| ==> DailySales(db)[i].saleDate != DailySales(db)[j].saleDate
    ensures forall r :: r in DailySales(db) ==> r.ordersCount > 0
  {
    var os, ks, rows := CompletedOrders(db), DailyKeys(db), DailySales(db);
    forall o | o in os ensures exists r :: r in rows && r.saleDate == SaleDay(o) {
      var i :| 0 <= i < |ks| && ks[i] == SaleDay(o);
      assert rows[i] in rows;
    }
    forall r | r in rows ensures r.ordersCount > 0 && exists o :: o in os && SaleDay(o) == r.saleDate {
      var i :| 0 <= i < |rows| && rows[i] == r;
      GroupOfKey(os, SaleDay, ks[i]);
      var g := Group(os, SaleDay, ks[i]);
      assert r == DailyAggregate(ks[i], g);
      assert g[0] in g && SomeOrderId(g[0]).Some?;
    }
  }

  /** category_analysis has exactly one row per category (NULL included) with a completed sale. */
  lemma CategoryAnalysisKeyed(db: Db)
    ensures forall l :: l in SaleLines(db) ==>
      exists r :: r in CategoryAnalysis(db) && r.category == LineCategory(l)
    ensures forall r :: r in CategoryAnalysis(db) ==>
      exists l :: l in SaleLines(db) && LineCategory(l) == r.category
    ensures forall i, j :: 0 <= i < j < |CategoryAnalysis(db)| ==>
      CategoryAnalysis(db)[i].category != CategoryAnalysis(db)[j].category
    ensures forall r :: r in CategoryAnalysis(db) ==> r.ordersCount > 0
  {
    var ls, ks, rows := SaleLines(db), CategoryKeys(db), CategoryAnalysis(db);
    forall l | l in ls ensures exists r :: r in rows && r.category == LineCategory(l) {
      var i :| 0 <= i < |ks| && ks[i] == LineCategory(l);
      assert rows[i] in rows;
    }
    forall r | r in rows ensures r.ordersCount > 0 && exists l :: l in ls && LineCategory(l) == r.category {
      var i :| 0 <= i < |rows| && rows[i] == r;
      GroupOfKey(ls, LineCategory, ks[i]);
      var g := Group(ls, LineCategory, ks[i]);
      assert r == CategoryAggregate(ks[i], g);
      assert g[0] in g && OrderIdOf(g[0]).Some?;
    }
  }

  /** order_details has one row per order that joins to a user and at least one item with a product. */
  lemma OrderDetailsKeyed(db: Db)
    ensures forall l :: l in DetailLines(db) ==> exists r :: r in OrderDetails(db) && r.orderId == l.order.id
    ensures forall i, j :: 0 <= i < j < |OrderDetails(db)| ==> OrderDetails(db)[i].orderId != OrderDetails(db)[j].orderId
  {
    var ls, ks, rows := DetailLines(db), DetailKeys(db), OrderDetails(db);
    forall l | l in ls ensures exists r :: r in rows && r.orderId == l.order.id {
      var i :| 0 <= i < |ks| && ks[i] == DetailOrderId(l);
      assert rows[i] in rows;
    }
  }

  /** Every order_details row comes from joined lines of its order, one product entry per item. */
  lemma OrderDetailsRows(db: Db)
    ensures forall r :: r in OrderDetails(db) ==> exists l :: l in DetailLines(db) && l.order.id == r.orderId
    ensures forall r :: r in OrderDetails(db) ==> r.itemsCount == |r.products| >= 1
  {
    var ls, ks, rows := DetailLines(db), DetailKeys(db), OrderDetails(db);
    forall r | r in rows ensures r.itemsCount == |r.products| && exists l :: l in ls && l.order.id == r.orderId {
      var i :| 0 <= i < |rows| && rows[i] == r;
      GroupOfKey(ls, DetailOrderId, ks[i]);
      var g := Group(ls, DetailOrderId, ks[i]);
      assert r == DetailAggregate(g);
      assert g[0] in g;
    }
  }

  /** customer_analytics: zero completed orders exactly when the LEFT JOIN yields NULL aggregates. */
  lemma CustomerAnalyticsNulls(db: Db)
    ensures forall r :: r in CustomerAnalytics(db) ==>
      && (r.totalOrders == 0 <==> r.totalSpent.None?)
      && (r.totalOrders == 0 <==> r.avgOrderValue.None?)
      && (r.totalOrders == 0 <==> r.lastOrderDate.None?)
  {
    var rows := CustomerAnalytics(db);
    forall r | r in rows
      ensures (r.totalOrders == 0 <==> r.totalSpent.None?) && (r.totalOrders == 0 <==> r.avgOrderValue.None?)
      ensures r.totalOrders == 0 <==> r.lastOrderDate.None?
    {
      var i :| 0 <= i < |rows| && rows[i] == r;
      assert r == CustomerAggregate(db.users[i], CompletedOrdersOf(db, db.users[i].id));
    }
  }

  /** last_order_date is the latest completed order of the user, and is one of them. */
  lemma CustomerLastOrderDate(db: Db, i: int)
    requires 0 <= i < |db.users|
    ensures var r := CustomerAnalytics(db)[i];
      && (forall o :: o in db.orders && IsCompleted(o) && o.userId == Some(db.users[i].id) ==>
            r.lastOrderDate.Some? && o.orderDate <= r.lastOrderDate.value)
      && (r.lastOrderDate.Some? ==> exists o :: o in CompletedOrdersOf(db, db.users[i].id) && o.orderDate == r.lastOrderDate.value)
  {
    var os := CompletedOrdersOf(db, db.users[i].id);
    assert CustomerAnalytics(db)[i] == CustomerAggregate(db.users[i], os);
  }

  // ---------------------------------------------------------------------------
  // Revenue is partitioned, not duplicated
  // ---------------------------------------------------------------------------

  function WeeklyRevenue(r: WeeklyRow): int { r.revenue }
  function CategoryRevenue(r: CategoryRow): int { r.totalRevenue }
  function DailyRevenue(r: DailyRow): int { r.totalRevenue }

  /** SUM(revenue_in_category) over weekly_sales_report is the revenue of all completed sale lines. */
  lemma WeeklyRevenuePartition(db: Db)
    ensures Sum(WeeklySalesReport(db), WeeklyRevenue) == Sum(SaleLines(db), LineSubtotal)
  {
    var ls, ks, rows := SaleLines(db), WeeklyKeys(db), WeeklySalesReport(db);
    forall i | 0 <= i < |ks| ensures WeeklyRevenue(rows[i]) == Sum(Group(ls, WeekKey, ks[i]), LineSubtotal) {
      assert rows[i] == WeeklyAggregate(ks[i], Group(ls, WeekKey, ks[i]));
    }
    SumRowsOverGroups(rows, WeeklyRevenue, ls, WeekKey, ks, LineSubtotal);
    PartitionSum(ls, WeekKey, LineSubtotal);
  }

  /** SUM(total_revenue) over category_analysis is the revenue of all completed sale lines. */
  lemma CategoryRevenuePartition(db: Db)
    ensures Sum(CategoryAnalysis(db), CategoryRevenue) == Sum(SaleLines(db), LineSubtotal)
  {
    var ls, ks, rows := SaleLines(db), CategoryKeys(db), CategoryAnalysis(db);
    forall i | 0 <= i < |ks| ensures CategoryRevenue(rows[i]) == Sum(Group(ls, LineCategory, ks[i]), LineSubtotal) {
      GroupOfKey(ls, LineCategory, ks[i]);
      assert rows[i] == CategoryAggregate(ks[i], Group(ls, LineCategory, ks[i]));
    }
    SumRowsOverGroups(rows, CategoryRevenue, ls, LineCategory, ks, LineSubtotal);
    PartitionSum(ls, LineCategory, LineSubtotal);
  }

  /** SUM(total_revenue) over daily_sales is the total of all completed orders. */
  lemma DailyRevenuePartition(db: Db)
    ensures Sum(DailySales(db), DailyRevenue) == Sum(CompletedOrders(db), TotalAmount)
  {
    var os, ks, rows := CompletedOrders(db), DailyKeys(db), DailySales(db);
    forall i | 0 <= i < |ks| ensures DailyRevenue(rows[i]) == Sum(Group(os, SaleDay, ks[i]), TotalAmount) {
      GroupOfKey(os, SaleDay, ks[i]);
      assert rows[i] == DailyAggregate(ks[i], Group(os, SaleDay, ks[i]));
    }
    SumRowsOverGroups(rows, DailyRevenue, os, SaleDay, ks, TotalAmount);
    PartitionSum(os, SaleDay, TotalAmount);
  }

  // ---------------------------------------------------------------------------
  // Row-level guarantees of weekly_sales_report
  // ---------------------------------------------------------------------------

  lemma WeeklyRowAt(db: Db, i: int)
    requires 0 <= i < |WeeklySalesReport(db)|
    ensures |Group(SaleLines(db), WeekKey, WeeklyKeys(db)[i])| > 0
    ensures WeeklySalesReport(db)[i] == WeeklyAggregate(WeeklyKeys(db)[i], Group(SaleLines(db), WeekKey, WeeklyKeys(db)[i]))
  {
    GroupOfKey(SaleLines(db), WeekKey, WeeklyKeys(db)[i]);
  }

  /** avg_order_value_in_category is revenue / orders rounded to the cent: within half a cent of it. */
  lemma WeeklyAverageRounded(db: Db)
    ensures forall r :: r in WeeklySalesReport(db) ==>
      -(r.ordersInCategory as int) <= 2 * (r.avgOrderValue * r.ordersInCategory - r.revenue) <= r.ordersInCategory
  {
    var rows := WeeklySalesReport(db);
    forall r | r in rows
      ensures -(r.ordersInCategory as int) <= 2 * (r.avgOrderValue * r.ordersInCategory - r.revenue) <= r.ordersInCategory
    {
      var i :| 0 <= i < |rows| && rows[i] == r;
      WeeklyRowAt(db, i);
    }
  }

  /**
   * unique_products_in_category <= items_sold_in_category: every item has
   * quantity >= 1, so the quantities add up to at least the number of lines,
   * which bounds the distinct products among them.
   */
  lemma WeeklyProductsAtMostItems(db: Db)
    requires WellFormed(db)
    ensures forall r :: r in WeeklySalesReport(db) ==> r.uniqueProducts <= r.itemsSold
  {
    var ls, ks, rows := SaleLines(db), WeeklyKeys(db), WeeklySalesReport(db);
    forall r | r in rows ensures r.uniqueProducts <= r.itemsSold {
      var i :| 0 <= i < |rows| && rows[i] == r;
      var g := Group(ls, WeekKey, ks[i]);
      WeeklyRowAt(db, i);
      forall l | l in g ensures LineQuantity(l) >= 1 {
        assert l in ls && l.item in db.items;
        assert ItemRowOk(l.item);
      }
      SumAtLeastCount(g, LineQuantity);
    }
  }

  /** No item is sold below zero: the unit prices the seeding writes are positive. */
  ghost predicate NonNegativeUnitPrices(db: Db)
  {
    forall it :: it in db.items ==> it.unitPrice >= 0
  }

  /** One weekly row of a database with non-negative unit prices has non-negative money and quantity columns. */
  lemma WeeklyRowNonNegative(db: Db, i: int)
    requires WellFormed(db) && NonNegativeUnitPrices(db)
    requires 0 <= i < |WeeklySalesReport(db)|
    ensures WeeklySalesReport(db)[i].revenue >= 0 && WeeklySalesReport(db)[i].itemsSold >= 0
    ensures WeeklySalesReport(db)[i].avgOrderValue >= 0
  {
    var g := Group(SaleLines(db), WeekKey, WeeklyKeys(db)[i]);
    WeeklyRowAt(db, i);
    SaleLinesNonNegative(db, g);
  }

  /** Lines drawn from the sales join of such a database add up to non-negative subtotals and quantities. */
  lemma SaleLinesNonNegative(db: Db, g: seq<SaleLine>)
    requires WellFormed(db) && NonNegativeUnitPrices(db)
    requires forall l :: l in g ==> l in SaleLines(db)
    ensures Sum(g, LineSubtotal) >= 0 && Sum(g, LineQuantity) >= 0
  {
    forall l | l in g ensures LineSubtotal(l) >= 0 && LineQuantity(l) >= 0 {
      assert l.item in db.items;
      assert ItemRowOk(l.item) && l.item.unitPrice >= 0;
    }
    SumNonNegative(g, LineSubtotal);
    SumNonNegative(g, LineQuantity);
  }

  /** With non-negative unit prices every money and quantity column of the weekly report is non-negative. */
  lemma WeeklyNonNegative(db: Db)
    requires WellFormed(db) && NonNegativeUnitPrices(db)
    ensures forall r :: r in WeeklySalesReport(db) ==> r.revenue >= 0 && r.itemsSold >= 0 && r.avgOrderValue >= 0
  {
    var rows := WeeklySalesReport(db);
    forall r | r in rows ensures r.revenue >= 0 && r.itemsSold >= 0 && r.avgOrderValue >= 0 {
      var i :| 0 <= i < |rows| && rows[i] == r;
      WeeklyRowNonNegative(db, i);
    }
  }

  // ---------------------------------------------------------------------------
  // Date keys
  // ---------------------------------------------------------------------------

  /**
   * week_start is midnight of a Monday, and each completed sale falls in the
   * seven days of its row's week.
   */
  lemma WeeklyWeekStarts(db: Db)
    ensures forall r :: r in WeeklySalesReport(db) ==>
      r.weekStart % SecondsPerDay == 0 && WeekdayIndex(r.weekStart / SecondsPerDay) == 0
    ensures forall l :: l in SaleLines(db) ==>
      exists r :: (r in WeeklySalesReport(db) && WeeklyKeyOf(r) == WeekKey(l)
        && r.weekStart <= l.order.orderDate < r.weekStart + DaysPerWeek * SecondsPerDay)
  {
    var ls, rows := SaleLines(db), WeeklySalesReport(db);
    WeeklyReportKeyed(db);
    forall r | r in rows ensures r.weekStart % SecondsPerDay == 0 && WeekdayIndex(r.weekStart / SecondsPerDay) == 0 {
      var l :| l in ls && WeekKey(l) == WeeklyKeyOf(r);
      WeekStartIsMonday(l.order.orderDate);
    }
    forall l | l in ls
      ensures exists r :: (r in rows && WeeklyKeyOf(r) == WeekKey(l)
        && r.weekStart <= l.order.orderDate < r.weekStart + DaysPerWeek * SecondsPerDay)
    {
      var r :| r in rows && WeeklyKeyOf(r) == WeekKey(l);
      WeekStartIsMonday(l.order.orderDate);
    }
  }

  /** Every monthly row's key is the month key of some completed order line. */
  lemma MonthlyRowWitness(db: Db, i: int) returns (l: OrderLine)
    requires 0 <= i < |MonthlySalesSummary(db)|
    ensures l in OrderLines(db) && MonthKeyOf(l) == MonthlyKeyOf(MonthlySalesSummary(db)[i])
  {
    var ks := MonthlyKeys(db);
    assert ks[i] in ks;
    l :| l in OrderLines(db) && MonthKeyOf(l) == ks[i];
  }

  /** A month key built from a timestamp names midnight of the first of that timestamp's month. */
  lemma MonthKeyOfValid(l: OrderLine)
    ensures MonthKeyOf(l).monthStart % SecondsPerDay == 0
    ensures Civil(MonthKeyOf(l).monthStart / SecondsPerDay).day == 1
    ensures ExtractYear(MonthKeyOf(l).monthStart) == MonthKeyOf(l).year
    ensures ExtractMonth(MonthKeyOf(l).monthStart) == MonthKeyOf(l).month
  {
    MonthStartBounds(l.order.orderDate);
    MonthStartSameMonth(l.order.orderDate);
  }

  /**
   * month_start is midnight of the first day of a month, and year and month
   * are that month's.
   */
  lemma MonthlyMonthKeys(db: Db)
    ensures forall r :: r in MonthlySalesSummary(db) ==>
      && r.monthStart % SecondsPerDay == 0
      && Civil(r.monthStart / SecondsPerDay).day == 1
      && ExtractYear(r.monthStart) == r.year && ExtractMonth(r.monthStart) == r.month
  {
    var rows := MonthlySalesSummary(db);
    forall r | r in rows
      ensures r.monthStart % SecondsPerDay == 0 && Civil(r.monthStart / SecondsPerDay).day == 1
      ensures ExtractYear(r.monthStart) == r.year && ExtractMonth(r.monthStart) == r.month
    {
      var i :| 0 <= i < |rows| && rows[i] == r;
      var l := MonthlyRowWitness(db, i);
      MonthKeyOfValid(l);
    }
  }

  /** Two order lines with the same month_start have the same month key. */
  lemma MonthKeyDeterminedByStart(l1: OrderLine, l2: OrderLine)
    requires MonthKeyOf(l1).monthStart == MonthKeyOf(l2).monthStart
    ensures MonthKeyOf(l1) == MonthKeyOf(l2)
  {
    MonthStartDeterminesYearMonth(l1.order.orderDate, l2.order.orderDate);
  }

  /**
   * The unique index on month_start holds: rows of different (month_start,
   * year, month) groups have different month_start, because the month key
   * determines year and month.
   */
  lemma MonthlyMonthStartsUnique(db: Db)
    ensures forall i, j :: 0 <= i < j < |MonthlySalesSummary(db)| ==>
      MonthlySalesSummary(db)[i].monthStart != MonthlySalesSummary(db)[j].monthStart
  {
    var ks, rows := MonthlyKeys(db), MonthlySalesSummary(db);
    forall i, j | 0 <= i < j < |rows| ensures rows[i].monthStart != rows[j].monthStart {
      var li := MonthlyRowWitness(db, i);
      var lj := MonthlyRowWitness(db, j);
      if rows[i].monthStart == rows[j].monthStart {
        MonthKeyDeterminedByStart(li, lj);
        assert false;
      }
    }
  }

  // ---------------------------------------------------------------------------
  // avg_product_price weights products by item rows
  // ---------------------------------------------------------------------------

  /**
   * AVG(p.price) runs over the joined item rows, so each product weighs as
   * many times as it has item rows in the group: lines a at price pa and
   * lines b at price pb average to (|a| * pa + |b| * pb) / (|a| + |b|),
   * rounded.
   */
  lemma CategoryAveragePerItemRow(c: Option<string>, a: seq<SaleLine>, b: seq<SaleLine>, pa: int, pb: int)
    requires |a| + |b| > 0
    requires forall l :: l in a ==> l.product.price == pa
    requires forall l :: l in b ==> l.product.price == pb
    ensures CategoryAggregate(c, a + b).avgProductPrice == RoundHalfAway(|a| * pa + |b| * pb, |a| + |b|)
  {
    assert forall l :: l in a ==> LinePrice(l) == pa;
    assert forall l :: l in b ==> LinePrice(l) == pb;
    SumConcat(a, b, LinePrice);
    SumConstant(a, LinePrice, pa);
    SumConstant(b, LinePrice, pb);
    var total, n := Sum(a + b, LinePrice), |a + b|;
    assert total == |a| * pa + |b| * pb && n == |a| + |b|;
    assert CategoryAggregate(c, a + b).avgProductPrice == RoundHalfAway(total, n);
  }

  /**
   * Two item rows of a 10.00 product and one of a 40.00 product give an
   * avg_product_price of 20.00, not the 25.00 average of the two products.
   */
  lemma CategoryAverageExample(o: Order, a1: OrderItem, a2: OrderItem, b: OrderItem, pa: Product, pb: Product)
    requires pa.price == 1000 && pb.price == 4000
    ensures CategoryAggregate(pa.category, [SaleLine(o, a1, pa), SaleLine(o, a2, pa), SaleLine(o, b, pb)]).avgProductPrice == 2000
  {
    var xs := [SaleLine(o, a1, pa), SaleLine(o, a2, pa)];
    var ys := [SaleLine(o, b, pb)];
    assert xs + ys == [SaleLine(o, a1, pa), SaleLine(o, a2, pa), SaleLine(o, b, pb)];
    CategoryAveragePerItemRow(pa.category, xs, ys, 1000, 4000);
  }
}
