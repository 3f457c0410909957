/**
 * The six analytical views as functions of a snapshot of the fact tables.
 *
 * Each view joins, filters on order_status = 'completed' (except
 * customer_analytics, whose LEFT JOIN carries the filter in its ON clause,
 * and order_details, which has none), groups, and aggregates with COUNT,
 * COUNT(DISTINCT), SUM, AVG and ROUND(..., 2). Rows come out in order of the
 * first occurrence of their group; ORDER BY is not modelled.
 *
 * Joins on a primary key look the key up; under the schema's constraints the
 * key names at most one row, so this is the inner join.
 */
module Views {
  import opened Relational
  import opened Schema
  import opened Calendar

  predicate IsCompleted(o: Order) { o.status == Some(Completed) }

  // ---------------------------------------------------------------------------
  // Join lines
  // ---------------------------------------------------------------------------

  /** One row of orders JOIN order_items JOIN products WHERE order_status = 'completed'. */
  datatype SaleLine = SaleLine(order: Order, item: OrderItem, product: Product)

  /** One row of orders JOIN order_items WHERE order_status = 'completed'. */
  datatype OrderLine = OrderLine(order: Order, item: OrderItem)

  /** One row of orders JOIN users JOIN order_items JOIN products (any status). */
  datatype DetailLine = DetailLine(order: Order, user: User, item: OrderItem, product: Product)

  /** A sale line joins an item to its completed order and to its product. */
  ghost predicate IsSaleLine(db: Db, l: SaleLine)
  {
    && l.order in db.orders && l.product in db.products
    && IsCompleted(l.order)
    && l.item.orderId == Some(l.order.id) && l.item.productId == Some(l.product.id)
  }

  function JoinSale(db: Db, it: OrderItem): (r: Option<SaleLine>)
    ensures r.Some? ==> IsSaleLine(db, r.value) && r.value.item == it
  {
    if it.orderId.None? || it.productId.None? then None
    else
      match (Lookup(db.orders, OrderKey, it.orderId.value), Lookup(db.products, ProductKey, it.productId.value))
      case (Some(o), Some(p)) => if IsCompleted(o) then Some(SaleLine(o, it, p)) else None
      case _ => None
  }

  function SaleLinesOf(db: Db, items: seq<OrderItem>): (ls: seq<SaleLine>)
    ensures |ls| <= |items|
    ensures forall l :: l in ls ==> IsSaleLine(db, l) && l.item in items
  {
    if |items| == 0 then []
    else
      var rest := SaleLinesOf(db, items[..|items| - 1]);
      var it := items[|items| - 1];
      assert forall l :: l in rest ==> l.item in items;
      match JoinSale(db, it)
      case None => rest
      case Some(l) => rest + [l]
  }

  /** The join behind category_analysis and weekly_sales_report. */
  function SaleLines(db: Db): seq<SaleLine>
  {
    SaleLinesOf(db, db.items)
  }

  function JoinOrder(db: Db, it: OrderItem): (r: Option<OrderLine>)
    ensures r.Some? ==> r.value.item == it && r.value.order in db.orders
    ensures r.Some? ==> IsCompleted(r.value.order) && it.orderId == Some(r.value.order.id)
  {
    if it.orderId.None? then None
    else
      match Lookup(db.orders, OrderKey, it.orderId.value)
      case Some(o) => if IsCompleted(o) then Some(OrderLine(o, it)) else None
      case None => None
  }

  function OrderLinesOf(db: Db, items: seq<OrderItem>): (ls: seq<OrderLine>)
    ensures |ls| <= |items|
    ensures forall l :: l in ls ==> l.item in items && l.order in db.orders
    ensures forall l :: l in ls ==> IsCompleted(l.order) && l.item.orderId == Some(l.order.id)
  {
    if |items| == 0 then []
    else
      var rest := OrderLinesOf(db, items[..|items| - 1]);
      var it := items[|items| - 1];
      assert forall l :: l in rest ==> l.item in items;
      match JoinOrder(db, it)
      case None => rest
      case Some(l) => rest + [l]
  }

  /** The join behind monthly_sales_summary: it does not join products. */
  function OrderLines(db: Db): seq<OrderLine>
  {
    OrderLinesOf(db, db.items)
  }

  function JoinDetail(db: Db, it: OrderItem): (r: Option<DetailLine>)
    ensures r.Some? ==> r.value.item == it && r.value.order in db.orders
    ensures r.Some? ==> r.value.user in db.users && r.value.product in db.products
    ensures r.Some? ==> it.orderId == Some(r.value.order.id) && r.value.order.userId == Some(r.value.user.id)
    ensures r.Some? ==> it.productId == Some(r.value.product.id)
  {
    if it.orderId.None? || it.productId.None? then None
    else
      match (Lookup(db.orders, OrderKey, it.orderId.value), Lookup(db.products, ProductKey, it.productId.value))
      case (Some(o), Some(p)) =>
        if o.userId.None? then None
        else
          (match Lookup(db.users, UserKey, o.userId.value)
           case Some(u) => Some(DetailLine(o, u, it, p))
           case None => None)
      case _ => None
  }

  function DetailLinesOf(db: Db, items: seq<OrderItem>): (ls: seq<DetailLine>)
    ensures |ls| <= |items|
    ensures forall l :: l in ls ==> l.item in items && l.order in db.orders
  {
    if |items| == 0 then []
    else
      var rest := DetailLinesOf(db, items[..|items| - 1]);
      var it := items[|items| - 1];
      assert forall l :: l in rest ==> l.item in items;
      match JoinDetail(db, it)
      case None => rest
      case Some(l) => rest + [l]
  }

  // ---------------------------------------------------------------------------
  // Column accessors used as aggregate arguments
  // ---------------------------------------------------------------------------

  function OrderIdOf(l: SaleLine): Option<int> { Some(l.order.id) }
  function CustomerOf(l: SaleLine): Option<int> { l.order.userId }
  function ProductOf(l: SaleLine): Option<int> { l.item.productId }
  function LineSubtotal(l: SaleLine): int { l.item.subtotal }
  function LineQuantity(l: SaleLine): int { l.item.quantity }
  function LinePrice(l: SaleLine): int { l.product.price }
  function LineCategory(l: SaleLine): Option<string> { l.product.category }

  function TotalAmount(o: Order): int { o.totalAmount }
  function OrderCustomer(o: Order): Option<int> { o.userId }
  function SomeOrderId(o: Order): Option<int> { Some(o.id) }

  function OLineOrderId(l: OrderLine): Option<int> { Some(l.order.id) }
  function OLineCustomer(l: OrderLine): Option<int> { l.order.userId }
  function OLineTotal(l: OrderLine): int { l.order.totalAmount }
  function OLineQuantity(l: OrderLine): int { l.item.quantity }

  // ---------------------------------------------------------------------------
  // daily_sales
  // ---------------------------------------------------------------------------

  datatype DailyRow = DailyRow(
    saleDate: int, ordersCount: nat, totalRevenue: Cents,
    avgOrderValue: Cents, uniqueCustomers: nat)

  function CompletedOrders(db: Db): (os: seq<Order>)
    ensures forall o :: o in os <==> o in db.orders && IsCompleted(o)
  {
    Where(db.orders, IsCompleted)
  }

  /** DATE(order_date) of an order, as a day number. */
  function SaleDay(o: Order): int { DayOf(o.orderDate) }

  function DailyAggregate(day: int, g: seq<Order>): DailyRow
    requires |g| > 0
  {
    DailyRow(day, CountDistinct(g, SomeOrderId), Sum(g, TotalAmount),
             RoundHalfAway(Sum(g, TotalAmount), |g|), CountDistinct(g, OrderCustomer))
  }

  function DailyKeys(db: Db): seq<int>
  {
    GroupKeys(CompletedOrders(db), SaleDay)
  }

  /** Row i is the aggregate of the completed orders placed on day i of the grouping keys. */
  function DailySales(db: Db): (rows: seq<DailyRow>)
    ensures |rows| == |DailyKeys(db)|
    ensures forall i :: 0 <= i < |rows| ==> rows[i].saleDate == DailyKeys(db)[i]
  {
    var os := CompletedOrders(db);
    var ks := DailyKeys(db);
    seq(|ks|, i requires 0 <= i < |ks| =>
      GroupOfKey(os, SaleDay, ks[i]);
      DailyAggregate(ks[i], Group(os, SaleDay, ks[i])))
  }

  // ---------------------------------------------------------------------------
  // category_analysis
  // ---------------------------------------------------------------------------

  datatype CategoryRow = CategoryRow(
    category: Option<string>, ordersCount: nat, itemsSold: int, totalRevenue: Cents,
    avgProductPrice: Cents, uniqueCustomers: nat)

  /** avg_product_price averages p.price over the joined item rows, not over distinct products. */
  function CategoryAggregate(c: Option<string>, g: seq<SaleLine>): CategoryRow
    requires |g| > 0
  {
    CategoryRow(c, CountDistinct(g, OrderIdOf), Sum(g, LineQuantity), Sum(g, LineSubtotal),
                RoundHalfAway(Sum(g, LinePrice), |g|), CountDistinct(g, CustomerOf))
  }

  function CategoryKeys(db: Db): seq<Option<string>>
  {
    GroupKeys(SaleLines(db), LineCategory)
  }

  /** Row i is the aggregate of the completed sale lines of category i of the grouping keys. */
  function CategoryAnalysis(db: Db): (rows: seq<CategoryRow>)
    ensures |rows| == |CategoryKeys(db)|
    ensures forall i :: 0 <= i < |rows| ==> rows[i].category == CategoryKeys(db)[i]
  {
    var ls := SaleLines(db);
    var ks := CategoryKeys(db);
    seq(|ks|, i requires 0 <= i < |ks| =>
      GroupOfKey(ls, LineCategory, ks[i]);
      CategoryAggregate(ks[i], Group(ls, LineCategory, ks[i])))
  }

  // ---------------------------------------------------------------------------
  // customer_analytics
  // ---------------------------------------------------------------------------

  datatype CustomerRow = CustomerRow(
    userId: int, customerName: string, email: string, city: Option<string>, country: Option<string>,
    totalOrders: nat, totalSpent: Option<Cents>, avgOrderValue: Option<Cents>,
    lastOrderDate: Option<Timestamp>)

  /** The latest order date among os, or NULL when there is none (MAX). */
  function MaxDate(os: seq<Order>): (m: Option<Timestamp>)
    ensures m.None? <==> |os| == 0
    ensures m.Some? ==> (forall o :: o in os ==> o.orderDate <= m.value)
    ensures m.Some? ==> exists o :: o in os && o.orderDate == m.value
  {
    if |os| == 0 then None
    else
      var p := os[..|os| - 1];
      var x := os[|os| - 1];
      assert forall y :: y in os <==> y in p || y == x;
      match MaxDate(p)
      case None => Some(x.orderDate)
      case Some(d) => Some(if x.orderDate > d then x.orderDate else d)
  }

  /** The completed orders of user uid: the rows the LEFT JOIN matches. */
  function CompletedOrdersOf(db: Db, uid: int): (os: seq<Order>)
    ensures forall o :: o in os <==> o in db.orders && IsCompleted(o) && o.userId == Some(uid)
  {
    Where(db.orders, (o: Order) => IsCompleted(o) && o.userId == Some(uid))
  }

  /**
   * The row of one user. Without a matching completed order the LEFT JOIN
   * supplies one all-NULL order: COUNT(o.id) is 0 and SUM, AVG and MAX are NULL.
   */
  function CustomerAggregate(u: User, os: seq<Order>): CustomerRow
  {
    CustomerRow(
      u.id, u.firstName + " " + u.lastName, u.email, u.city, u.country,
      |os|,
      if |os| == 0 then None else Some(Sum(os, TotalAmount)),
      if |os| == 0 then None else Some(RoundHalfAway(Sum(os, TotalAmount), |os|)),
      MaxDate(os))
  }

  /** Exactly one row per user, in table order, whether or not the user bought anything. */
  function CustomerAnalytics(db: Db): (rows: seq<CustomerRow>)
    ensures |rows| == |db.users|
    ensures forall i :: 0 <= i < |rows| ==> rows[i].userId == db.users[i].id
    ensures forall i :: 0 <= i < |rows| ==> rows[i].totalOrders == |CompletedOrdersOf(db, db.users[i].id)|
  {
    seq(|db.users|, i requires 0 <= i < |db.users| =>
      CustomerAggregate(db.users[i], CompletedOrdersOf(db, db.users[i].id)))
  }

  // ---------------------------------------------------------------------------
  // order_details
  // ---------------------------------------------------------------------------

  /** products is STRING_AGG(title || ' (x' || quantity || ')'), kept as its (title, quantity) parts. */
  datatype DetailRow = DetailRow(
    orderId: int, customerName: string, orderDate: Timestamp, totalAmount: Cents,
    status: Option<Status>, itemsCount: nat, products: seq<(string, int)>)

  function DetailOrderId(l: DetailLine): int { l.order.id }

  function DetailAggregate(g: seq<DetailLine>): (r: DetailRow)
    requires |g| > 0
    ensures r.itemsCount == |g| == |r.products|
  {
    var l := g[0];
    DetailRow(l.order.id, l.user.firstName + " " + l.user.lastName, l.order.orderDate,
              l.order.totalAmount, l.order.status, |g|,
              seq(|g|, i requires 0 <= i < |g| => (g[i].product.title, g[i].item.quantity)))
  }

  function DetailLines(db: Db): seq<DetailLine>
  {
    DetailLinesOf(db, db.items)
  }

  function DetailKeys(db: Db): seq<int>
  {
    GroupKeys(DetailLines(db), DetailOrderId)
  }

  /** Row i describes order i of the grouping keys, from that order's joined lines. */
  function OrderDetails(db: Db): (rows: seq<DetailRow>)
    ensures |rows| == |DetailKeys(db)|
    ensures forall i :: 0 <= i < |rows| ==> rows[i].orderId == DetailKeys(db)[i] && rows[i].itemsCount >= 1
  {
    var ls := DetailLines(db);
    var ks := DetailKeys(db);
    var rows := seq(|ks|, i requires 0 <= i < |ks| =>
      GroupOfKey(ls, DetailOrderId, ks[i]);
      DetailAggregate(Group(ls, DetailOrderId, ks[i])));
    forall i | 0 <= i < |ks| ensures rows[i].orderId == ks[i] && rows[i].itemsCount >= 1 {
      GroupOfKey(ls, DetailOrderId, ks[i]);
      var g := Group(ls, DetailOrderId, ks[i]);
      assert g[0] in g;
      assert rows[i] == DetailAggregate(g);
    }
    rows
  }

  // ---------------------------------------------------------------------------
  // weekly_sales_report (materialized)
  // ---------------------------------------------------------------------------

  datatype WeekCategory = WeekCategory(weekStart: Timestamp, category: Option<string>)

  datatype WeeklyRow = WeeklyRow(
    weekStart: Timestamp, topCategory: Option<string>,
    ordersInCategory: nat, uniqueCustomers: nat, revenue: Cents, itemsSold: int,
    avgOrderValue: Cents, uniqueProducts: nat)

  /** GROUP BY DATE_TRUNC('week', o.order_date), p.category. */
  function WeekKey(l: SaleLine): WeekCategory
  {
    WeekCategory(WeekStart(l.order.orderDate), l.product.category)
  }

  function WeeklyKeyOf(r: WeeklyRow): WeekCategory
  {
    WeekCategory(r.weekStart, r.topCategory)
  }

  /**
   * The aggregates of one (week, category) group. A non-empty group counts at
   * least one order, and its average is revenue / orders to the nearest cent.
   */
  function WeeklyAggregate(k: WeekCategory, g: seq<SaleLine>): (r: WeeklyRow)
    ensures WeeklyKeyOf(r) == k
    ensures |g| > 0 ==> r.ordersInCategory > 0
    ensures r.ordersInCategory > 0 ==>
      -(r.ordersInCategory as int) <= 2 * (r.avgOrderValue * r.ordersInCategory - r.revenue) <= r.ordersInCategory
    ensures r.revenue >= 0 ==> r.avgOrderValue >= 0
  {
    var orders := CountDistinct(g, OrderIdOf);
    var revenue := Sum(g, LineSubtotal);
    assert |g| > 0 ==> g[0] in g && OrderIdOf(g[0]).Some?;
    WeeklyRow(k.weekStart, k.category, orders, CountDistinct(g, CustomerOf), revenue,
              Sum(g, LineQuantity), if orders > 0 then RoundHalfAway(revenue, orders) else 0,
              CountDistinct(g, ProductOf))
  }

  function WeeklyKeys(db: Db): seq<WeekCategory>
  {
    GroupKeys(SaleLines(db), WeekKey)
  }

  /** Row i is the aggregate of the completed sale lines of (week, category) i of the grouping keys. */
  function WeeklySalesReport(db: Db): (rows: seq<WeeklyRow>)
    ensures |rows| == |WeeklyKeys(db)|
    ensures forall i :: 0 <= i < |rows| ==> WeeklyKeyOf(rows[i]) == WeeklyKeys(db)[i]
  {
    var ls := SaleLines(db);
    var ks := WeeklyKeys(db);
    seq(|ks|, i requires 0 <= i < |ks| => WeeklyAggregate(ks[i], Group(ls, WeekKey, ks[i])))
  }

  // ---------------------------------------------------------------------------
  // monthly_sales_summary (materialized)
  // ---------------------------------------------------------------------------

  datatype MonthKey = MonthKey(monthStart: Timestamp, year: int, month: int)

  datatype MonthlyRow = MonthlyRow(
    monthStart: Timestamp, year: int, month: int, totalOrders: nat, uniqueCustomers: nat,
    totalRevenue: Cents, totalItemsSold: int, avgOrderValue: Cents)

  /** GROUP BY DATE_TRUNC('month', o.order_date), year, month. */
  function MonthKeyOf(l: OrderLine): MonthKey
  {
    var t := l.order.orderDate;
    MonthKey(MonthStart(t), ExtractYear(t), ExtractMonth(t))
  }

  /**
   * SUM and AVG of o.total_amount run over the join rows, so an order with k
   * items counts k times in both.
   */
  function MonthlyAggregate(k: MonthKey, g: seq<OrderLine>): MonthlyRow
    requires |g| > 0
  {
    MonthlyRow(k.monthStart, k.year, k.month, CountDistinct(g, OLineOrderId),
               CountDistinct(g, OLineCustomer), Sum(g, OLineTotal), Sum(g, OLineQuantity),
               RoundHalfAway(Sum(g, OLineTotal), |g|))
  }

  function MonthlyKeys(db: Db): seq<MonthKey>
  {
    GroupKeys(OrderLines(db), MonthKeyOf)
  }

  function MonthlyKeyOf(r: MonthlyRow): MonthKey
  {
    MonthKey(r.monthStart, r.year, r.month)
  }

  /** Row i is the aggregate of the completed order lines of month i of the grouping keys. */
  function MonthlySalesSummary(db: Db): (rows: seq<MonthlyRow>)
    ensures |rows| == |MonthlyKeys(db)|
    ensures forall i :: 0 <= i < |rows| ==> MonthlyKeyOf(rows[i]) == MonthlyKeys(db)[i]
  {
    var ls := OrderLines(db);
    var ks := MonthlyKeys(db);
    seq(|ks|, i requires 0 <= i < |ks| =>
      GroupOfKey(ls, MonthKeyOf, ks[i]);
      MonthlyAggregate(ks[i], Group(ls, MonthKeyOf, ks[i])))
  }
}
