/**
 * The checks that the weekly-report correctness test and the report
 * consistency test apply to the materialized reports.
 *
 * The row validator walks the rows of weekly_sales_report and, for each row,
 * runs eight field checks in a fixed order; the first check that fails is
 * recorded as the row's only problem. The aggregate checks count rows whose
 * average is more than 1.00 away from revenue / orders, and rows that sold
 * fewer items than distinct products. The consistency test compares three
 * revenue totals, each read as 0 when the table is empty.
 */
module ReportChecks {
  import opened Relational
  import opened Schema
  import opened Views
  import opened ViewProperties
  import opened Agreement

  /** The field checks of the row validator, in the order they run. */
  datatype RowCheck =
    | WeekIsDate          // week_start has the type of the row's first column
    | CategoryNonEmpty    // top_category is a non-empty string
    | OrdersNonNegative
    | CustomersNonNegative
    | RevenueNonNegative
    | ItemsNonNegative
    | AverageNonNegative
    | ProductsNonNegative

  const RowChecks: seq<RowCheck> := [
    WeekIsDate, CategoryNonEmpty, OrdersNonNegative, CustomersNonNegative,
    RevenueNonNegative, ItemsNonNegative, AverageNonNegative, ProductsNonNegative]

  /**
   * Whether row r passes check c. week_start is compared with the type of
   * the row's own first column, which is week_start itself, so that check
   * always passes; a NULL category is not a string.
   */
  predicate Passes(r: WeeklyRow, c: RowCheck)
  {
    match c
    case WeekIsDate => true
    case CategoryNonEmpty => r.topCategory.Some? && r.topCategory.value != ""
    case OrdersNonNegative => r.ordersInCategory as int >= 0
    case CustomersNonNegative => r.uniqueCustomers as int >= 0
    case RevenueNonNegative => r.revenue >= 0
    case ItemsNonNegative => r.itemsSold >= 0
    case AverageNonNegative => r.avgOrderValue >= 0
    case ProductsNonNegative => r.uniqueProducts as int >= 0
  }

  predicate RowPasses(r: WeeklyRow)
  {
    forall c :: c in RowChecks ==> Passes(r, c)
  }

  /** The position in cs of the first check that r fails, if any. */
  function FirstFailing(r: WeeklyRow, cs: seq<RowCheck>): (f: Option<nat>)
    ensures f.None? <==> forall c :: c in cs ==> Passes(r, c)
    ensures f.Some? ==>
      f.value < |cs| && !Passes(r, cs[f.value]) && forall j :: 0 <= j < f.value ==> Passes(r, cs[j])
  {
    if |cs| == 0 then None
    else if !Passes(r, cs[0]) then Some(0)
    else
      match FirstFailing(r, cs[1..])
      case None =>
        assert forall c :: c in cs ==> c == cs[0] || c in cs[1..];
        None
      case Some(k) => Some(k + 1)
  }

  /** The first failing check is the only one that can be at its position. */
  lemma FirstFailingAt(r: WeeklyRow, cs: seq<RowCheck>, j: nat)
    requires j < |cs| && !Passes(r, cs[j])
    requires forall k :: 0 <= k < j ==> Passes(r, cs[k])
    ensures FirstFailing(r, cs) == Some(j)
  {
    assert cs[j] in cs;
  }

  /** The check that the validator records for r: the first one r fails, if any. */
  function FailedCheck(r: WeeklyRow): Option<RowCheck>
  {
    match FirstFailing(r, RowChecks)
    case None => None
    case Some(k) => Some(RowChecks[k])
  }

  /** A row has no recorded check exactly when it passes them all; a recorded check is one it fails. */
  lemma FailedCheckMeaning(r: WeeklyRow)
    ensures FailedCheck(r).None? <==> RowPasses(r)
    ensures FailedCheck(r).Some? ==> FailedCheck(r).value in RowChecks && !Passes(r, FailedCheck(r).value)
  {
    var f := FirstFailing(r, RowChecks);
    if f.Some? {
      assert RowChecks[f.value] in RowChecks;
    }
  }

  /** An entry of problematic_rows: the row's position, the row, and the check it failed. */
  datatype Problem = Problem(index: nat, row: WeeklyRow, check: RowCheck)

  /**
   * The problems a validator records for rows when fail names the check a row
   * fails first: one per failing row, in row order. The validator uses
   * FailedCheck.
   */
  function ProblemsOf(rows: seq<WeeklyRow>, fail: WeeklyRow -> Option<RowCheck>): (ps: seq<Problem>)
    ensures forall p :: p in ps ==> p.index < |rows| && p.row == rows[p.index] && fail(p.row) == Some(p.check)
    ensures forall i :: 0 <= i < |rows| && fail(rows[i]).Some? ==> Problem(i, rows[i], fail(rows[i]).value) in ps
    ensures forall a, b :: 0 <= a < b < |ps| ==> ps[a].index < ps[b].index
    ensures |ps| == 0 <==> forall i :: 0 <= i < |rows| ==> fail(rows[i]).None?
  {
    if |rows| == 0 then []
    else
      var n := |rows| - 1;
      var ps := ProblemsOf(rows[..n], fail);
      assert forall i :: 0 <= i < n ==> rows[..n][i] == rows[i];
      match fail(rows[n])
      case None => ps
      case Some(c) => ps + [Problem(n, rows[n], c)]
  }

  /** Validating one more row appends that row's problem, if it has one. */
  lemma ProblemsOfStep(rows: seq<WeeklyRow>, i: nat, fail: WeeklyRow -> Option<RowCheck>)
    requires i < |rows|
    ensures ProblemsOf(rows[..i + 1], fail) ==
      ProblemsOf(rows[..i], fail) + (if fail(rows[i]).Some? then [Problem(i, rows[i], fail(rows[i]).value)] else [])
  {
    assert rows[..i + 1][..i] == rows[..i];
  }

  /** Checks 0 .. j-1 pass and check j fails: check j is the one recorded. */
  lemma RecordedAt(r: WeeklyRow, j: nat)
    requires j < |RowChecks| && !Passes(r, RowChecks[j])
    requires forall k :: 0 <= k < j ==> Passes(r, RowChecks[k])
    ensures FailedCheck(r) == Some(RowChecks[j])
  {
    FirstFailingAt(r, RowChecks, j);
  }

  /** Every check passes: nothing is recorded. */
  lemma NothingRecorded(r: WeeklyRow)
    requires forall k :: 0 <= k < |RowChecks| ==> Passes(r, RowChecks[k])
    ensures FailedCheck(r) == None
  {
    assert FirstFailing(r, RowChecks).None? by {
      forall c | c in RowChecks ensures Passes(r, c) {
        var k :| 0 <= k < |RowChecks| && RowChecks[k] == c;
      }
    }
  }

  /** The inner loop of the validator: run the checks in order and stop at the first failure. */
  method FirstFailedCheck(row: WeeklyRow) returns (f: Option<RowCheck>)
    ensures f == FailedCheck(row)
  {
    var j := 0;
    while j < |RowChecks|
      invariant 0 <= j <= |RowChecks|
      invariant forall k :: 0 <= k < j ==> Passes(row, RowChecks[k])
    {
      if !Passes(row, RowChecks[j]) {
        RecordedAt(row, j);
        return Some(RowChecks[j]);
      }
      j := j + 1;
    }
    NothingRecorded(row);
    return None;
  }

  /**
   * The row validator: for each row, the checks run in order and the first
   * failure is appended to the problem list, ending that row's checks.
   */
  method ValidateRows(rows: seq<WeeklyRow>) returns (problems: seq<Problem>)
    ensures problems == ProblemsOf(rows, FailedCheck)
  {
    problems := [];
    var i := 0;
    while i < |rows|
      invariant 0 <= i <= |rows|
      invariant problems == ProblemsOf(rows[..i], FailedCheck)
    {
      var row := rows[i];
      ProblemsOfStep(rows, i, FailedCheck);
      var failed := FirstFailedCheck(row);
      if failed.Some? {
        problems := problems + [Problem(i, row, failed.value)];
      }
      i := i + 1;
    }
    assert rows[..i] == rows;
  }

  // ---------------------------------------------------------------------------
  // Aggregate checks
  // ---------------------------------------------------------------------------

  function Abs(x: int): int { if x < 0 then -x else x }

  /**
   * The average check's condition: orders and revenue positive and the
   * average more than 1.00 away from revenue / orders. In cents that is
   * |avg * orders - revenue| > 100 * orders.
   */
  predicate BadAverage(r: WeeklyRow)
  {
    r.ordersInCategory > 0 && r.revenue > 0
    && Abs(r.avgOrderValue * r.ordersInCategory - r.revenue) > 100 * r.ordersInCategory
  }

  /** The logic check's condition: some items sold, but fewer than the distinct products. */
  predicate IllogicalProducts(r: WeeklyRow)
  {
    r.itemsSold < r.uniqueProducts && r.itemsSold > 0
  }

  /**
   * The weekly-report correctness test over the rows stored in the
   * materialized view weekly_sales_report (None when the view does not
   * exist: the query raises and the test reports false). It returns false as
   * soon as the validator recorded a problem or one of the counted
   * conditions holds for some row (the failed assertion is caught and
   * reported as false).
   */
  method TestWeeklyReportCorrectness(weekly: Option<seq<WeeklyRow>>) returns (ok: bool)
    ensures ok <==> weekly.Some? && forall r :: r in weekly.value ==> RowPasses(r) && !BadAverage(r) && !IllogicalProducts(r)
  {
    if weekly.None? {
      return false;
    }
    var rows := weekly.value;
    var problems := ValidateRows(rows);
    forall i | 0 <= i < |rows| ensures FailedCheck(rows[i]).None? <==> RowPasses(rows[i]) {
      FailedCheckMeaning(rows[i]);
    }
    if |problems| > 0 {
      return false;
    }
    var incorrectAvg := Count(rows, BadAverage);
    if incorrectAvg != 0 {
      return false;
    }
    var illogical := Count(rows, IllogicalProducts);
    if illogical != 0 {
      return false;
    }
    return true;
  }

  // ---------------------------------------------------------------------------
  // The weekly report the views compute passes the test
  // ---------------------------------------------------------------------------

  /** Every product has a non-NULL, non-empty category, as the seeding writes them. */
  ghost predicate CategoriesNamed(db: Db)
  {
    forall p :: p in db.products ==> p.category.Some? && p.category.value != ""
  }

  /** Each row of the weekly report names the category of some product. */
  lemma WeeklyCategoryOfProduct(db: Db, i: int)
    requires 0 <= i < |WeeklySalesReport(db)|
    ensures exists p :: p in db.products && p.category == WeeklySalesReport(db)[i].topCategory
  {
    var k := WeeklyKeys(db)[i];
    assert k in WeeklyKeys(db);
    var l :| l in SaleLines(db) && WeekKey(l) == k;
    assert IsSaleLine(db, l);
  }

  /** Each completed sale line has a weekly row carrying its product's category. */
  lemma WeeklyRowOfSale(db: Db, l: SaleLine) returns (i: int)
    requires l in SaleLines(db)
    ensures 0 <= i < |WeeklySalesReport(db)| && WeeklySalesReport(db)[i].topCategory == l.product.category
  {
    var ks := WeeklyKeys(db);
    assert WeekKey(l) in ks;
    i :| 0 <= i < |ks| && ks[i] == WeekKey(l);
  }

  /** An average within half a cent of revenue / orders is within the test's 1.00 tolerance. */
  lemma AverageWithinTolerance(avg: int, n: int, revenue: int)
    requires n > 0 && -n <= 2 * (avg * n - revenue) <= n
    ensures Abs(avg * n - revenue) <= 100 * n
  {
  }

  /**
   * With named categories and non-negative unit prices, every row of the
   * weekly report passes the validator, the average check and the logic check.
   */
  lemma WeeklyReportAccepted(db: Db)
    requires WellFormed(db) && NonNegativeUnitPrices(db) && CategoriesNamed(db)
    ensures forall r :: r in WeeklySalesReport(db) ==> RowPasses(r) && !BadAverage(r) && !IllogicalProducts(r)
  {
    var rows := WeeklySalesReport(db);
    WeeklyProductsAtMostItems(db);
    forall r | r in rows ensures RowPasses(r) && !BadAverage(r) && !IllogicalProducts(r) {
      var i :| 0 <= i < |rows| && rows[i] == r;
      WeeklyRowAccepted(db, i);
    }
  }

  /** One row of the weekly report passes the validator's field checks and the average check. */
  lemma WeeklyRowAccepted(db: Db, i: int)
    requires WellFormed(db) && NonNegativeUnitPrices(db) && CategoriesNamed(db)
    requires 0 <= i < |WeeklySalesReport(db)|
    ensures RowPasses(WeeklySalesReport(db)[i]) && !BadAverage(WeeklySalesReport(db)[i])
  {
    var r := WeeklySalesReport(db)[i];
    WeeklyRowNonNegative(db, i);
    WeeklyCategoryOfProduct(db, i);
    RowPassesWhen(r);
    WeeklyRowAverage(db, i);
  }

  /** The average of every weekly row is within the test's tolerance. */
  lemma WeeklyRowAverage(db: Db, i: int)
    requires 0 <= i < |WeeklySalesReport(db)|
    ensures !BadAverage(WeeklySalesReport(db)[i])
  {
    var r := WeeklySalesReport(db)[i];
    WeeklyRowAt(db, i);
    if r.ordersInCategory > 0 {
      AverageWithinTolerance(r.avgOrderValue, r.ordersInCategory, r.revenue);
    }
  }

  /** A row with a named category and non-negative amounts passes every field check. */
  lemma RowPassesWhen(r: WeeklyRow)
    requires r.topCategory.Some? && r.topCategory.value != ""
    requires r.revenue >= 0 && r.itemsSold >= 0 && r.avgOrderValue >= 0
    ensures RowPasses(r)
  {
  }

  /**
   * A completed sale of a product whose category is NULL gives a weekly row
   * that the validator rejects.
   */
  lemma NullCategoryRejected(db: Db, l: SaleLine)
    requires l in SaleLines(db) && l.product.category.None?
    ensures ProblemsOf(WeeklySalesReport(db), FailedCheck) != []
  {
    var rows := WeeklySalesReport(db);
    var i := WeeklyRowOfSale(db, l);
    assert !Passes(rows[i], CategoryNonEmpty) && CategoryNonEmpty in RowChecks;
    FailedCheckMeaning(rows[i]);
  }

  // ---------------------------------------------------------------------------
  // Revenue consistency
  // ---------------------------------------------------------------------------

  /** SUM(total_amount) of the completed orders, 0 when there is none. */
  function CompletedOrdersTotal(db: Db): int { Sum(CompletedOrders(db), TotalAmount) }

  /** SUM(total_revenue) of category_analysis, 0 when it is empty. */
  function CategoriesTotal(db: Db): int { Sum(CategoryAnalysis(db), CategoryRevenue) }

  /** SUM(revenue_in_category) over the stored weekly rows, 0 when there is none. */
  function WeeklyTotal(rows: seq<WeeklyRow>): int { Sum(rows, WeeklyRevenue) }

  /**
   * The consistency test. category_analysis is a plain view, computed over
   * the current tables; weekly_sales_report is read from its stored
   * snapshot (None when the view does not exist: the query raises and the
   * test reports false). The category total and the weekly total must each
   * lie strictly within 1.00 of the completed-orders total.
   */
  predicate TestReportDataConsistency(db: Db, weekly: Option<seq<WeeklyRow>>)
  {
    && weekly.Some?
    && Abs(CompletedOrdersTotal(db) - CategoriesTotal(db)) < 100
    && Abs(CompletedOrdersTotal(db) - WeeklyTotal(weekly.value)) < 100
  }

  /**
   * When every order's total is the sum of its items, no completed item
   * lacks a product, and the weekly snapshot was refreshed over the current
   * tables, the three totals are equal and the test passes.
   */
  lemma ConsistencyHolds(db: Db, weekly: Option<seq<WeeklyRow>>)
    requires WellFormed(db) && TotalsConsistent(db) && CompletedItemsHaveProducts(db)
    requires weekly == Some(WeeklySalesReport(db))
    ensures CategoriesTotal(db) == CompletedOrdersTotal(db) && WeeklyTotal(weekly.value) == CompletedOrdersTotal(db)
    ensures TestReportDataConsistency(db, weekly)
  {
    RevenueAgreement(db);
  }

  /**
   * A stale snapshot fails the test even on consistent data: the snapshot is
   * refreshed over empty tables, then a completed order of 5.00 is written
   * and the test is run without another refresh.
   */
  lemma StaleSnapshotRejected() returns (before: Db, after: Db)
    ensures WellFormed(after) && TotalsConsistent(after) && CompletedItemsHaveProducts(after)
    ensures !TestReportDataConsistency(after, Some(WeeklySalesReport(before)))
  {
    before := Db([], [], [], []);
    var u := User(1, "Ada", "Lovelace", "ada@example.org", None, None, 0, 0);
    var p := Product(1, "notebook", 500, Some("Books"), 0, 0);
    var o := Order(1, Some(1), 0, 500, Some(Completed), 0, 0);
    var it := OrderItem(1, Some(1), Some(1), 1, 500, 500, 0, 0);
    after := Db([u], [p], [o], [it]);
    assert Lookup(after.users, UserKey, 1) == Some(u);
    assert Lookup(after.products, ProductKey, 1) == Some(p);
    assert Lookup(after.orders, OrderKey, 1) == Some(o);
    assert WellFormed(after);
    assert ItemsOf(after.items, 1) == [it];
    assert TotalsConsistent(after);
    assert CompletedItemsHaveProducts(after);
    assert CompletedOrders(after) == [o];
    SumSingleton(o, TotalAmount);
    assert WeeklySalesReport(before) == [];
  }
}
