/**
 * The data-type and constraint test: it counts products priced below zero,
 * items with a negative quantity, items whose subtotal is more than 0.01 off
 * quantity * unit_price, and the rows of weekly_sales_report, those with a
 * NULL category and those with negative revenue. Each count is asserted to
 * be zero (the row count to be positive); the first failed assertion makes
 * the test report false.
 */
module TypeChecks {
  import opened Relational
  import opened Schema
  import opened Views
  import opened ViewProperties
  import opened Seeding
  import opened ReportChecks

  predicate NegativePrice(p: Product) { p.price < 0 }
  predicate NegativeQuantity(it: OrderItem) { it.quantity < 0 }

  /** ABS(subtotal - quantity * unit_price) > 0.01, in cents. */
  predicate SubtotalOff(it: OrderItem) { Abs(it.subtotal - it.quantity * it.unitPrice) > 1 }

  predicate NullCategory(r: WeeklyRow) { r.topCategory.None? }
  predicate NegativeRevenue(r: WeeklyRow) { r.revenue < 0 }

  /** COUNT(*), the NULL-category count and the negative-revenue count of weekly_sales_report. */
  datatype WeeklyStats = WeeklyStats(totalRecords: nat, nullCategories: nat, negativeRevenue: nat)

  function WeeklyStatsOf(rows: seq<WeeklyRow>): (s: WeeklyStats)
    ensures s.totalRecords == |rows|
    ensures s.nullCategories == 0 <==> forall r :: r in rows ==> r.topCategory.Some?
    ensures s.negativeRevenue == 0 <==> forall r :: r in rows ==> r.revenue >= 0
  {
    WeeklyStats(|rows|, Count(rows, NullCategory), Count(rows, NegativeRevenue))
  }

  /**
   * The test's verdict over the current tables and the rows stored in the
   * materialized view weekly_sales_report (None when the view does not
   * exist: the statistics query raises and the test reports false). True
   * exactly when no product is priced below zero, every item has a
   * non-negative quantity and a subtotal within a cent of
   * quantity * unit_price, and the stored report has rows, none with a NULL
   * category or negative revenue.
   */
  function TestDataTypesAndConstraints(db: Db, weekly: Option<seq<WeeklyRow>>): (ok: bool)
    ensures ok <==>
      && weekly.Some?
      && (forall p :: p in db.products ==> p.price >= 0)
      && (forall it :: it in db.items ==> it.quantity >= 0 && Abs(it.subtotal - it.quantity * it.unitPrice) <= 1)
      && |weekly.value| > 0
      && (forall r :: r in weekly.value ==> r.topCategory.Some? && r.revenue >= 0)
  {
    && weekly.Some?
    && Count(db.products, NegativePrice) == 0
    && Count(db.items, NegativeQuantity) == 0
    && Count(db.items, SubtotalOff) == 0
    && var stats := WeeklyStatsOf(weekly.value);
    && stats.totalRecords > 0
    && stats.nullCategories == 0
    && stats.negativeRevenue == 0
  }

  /** The weekly report has a row exactly when some completed item joins to a product. */
  lemma WeeklyNonEmpty(db: Db)
    ensures |WeeklySalesReport(db)| > 0 <==> |SaleLines(db)| > 0
  {
    if |SaleLines(db)| > 0 {
      assert SaleLines(db)[0] in SaleLines(db);
      assert WeekKey(SaleLines(db)[0]) in WeeklyKeys(db);
    }
  }

  /** No product is priced below zero. */
  ghost predicate NonNegativePrices(db: Db)
  {
    forall p :: p in db.products ==> p.price >= 0
  }

  /**
   * The schema's CHECK(quantity > 0) and generated subtotal make the item
   * counts zero; with non-negative prices, named categories, at least one
   * completed sale and a snapshot refreshed over the current tables, the
   * whole test passes.
   */
  lemma DataTypesAccepted(db: Db, weekly: Option<seq<WeeklyRow>>)
    requires WellFormed(db) && NonNegativePrices(db) && NonNegativeUnitPrices(db) && CategoriesNamed(db)
    requires |SaleLines(db)| > 0
    requires weekly == Some(WeeklySalesReport(db))
    ensures TestDataTypesAndConstraints(db, weekly)
  {
    WeeklyNonEmpty(db);
    WeeklyRowsAccepted(db);
    ItemsAccepted(db);
  }

  /** Every item row keeps CHECK(quantity > 0) and the generated subtotal. */
  lemma ItemsAccepted(db: Db)
    requires WellFormed(db)
    ensures forall it :: it in db.items ==> it.quantity >= 0 && Abs(it.subtotal - it.quantity * it.unitPrice) <= 1
  {
    forall it | it in db.items ensures it.quantity >= 0 && Abs(it.subtotal - it.quantity * it.unitPrice) <= 1 {
      assert ItemRowOk(it);
    }
  }

  /** With named categories and non-negative unit prices no weekly row has a NULL category or negative revenue. */
  lemma WeeklyRowsAccepted(db: Db)
    requires WellFormed(db) && NonNegativeUnitPrices(db) && CategoriesNamed(db)
    ensures forall r :: r in WeeklySalesReport(db) ==> r.topCategory.Some? && r.revenue >= 0
  {
    var rows := WeeklySalesReport(db);
    forall r | r in rows ensures r.topCategory.Some? && r.revenue >= 0 {
      var i :| 0 <= i < |rows| && rows[i] == r;
      WeeklyCategoryOfProduct(db, i);
      WeeklyRowNonNegative(db, i);
    }
  }

  /** Without a completed sale a freshly refreshed weekly report is empty and the test fails. */
  lemma NoSalesRejected(db: Db, weekly: Option<seq<WeeklyRow>>)
    requires |SaleLines(db)| == 0
    requires weekly == Some(WeeklySalesReport(db))
    ensures !TestDataTypesAndConstraints(db, weekly)
  {
    WeeklyNonEmpty(db);
  }

  /**
   * products.price carries no CHECK: a database that meets every declared
   * constraint can hold a product priced below zero, which this test rejects
   * whatever the weekly snapshot holds.
   */
  lemma NegativePriceAdmitted() returns (db: Db)
    ensures WellFormed(db) && !NonNegativePrices(db)
    ensures forall weekly :: !TestDataTypesAndConstraints(db, weekly)
  {
    var p := Product(1, "refund voucher", -500, None, 0, 0);
    db := Db([], [p], [], []);
    assert p in db.products;
  }

  /**
   * The products the seeding writes have positive prices and a category from
   * the fixed list, so they satisfy the hypotheses the tests need.
   */
  lemma SeededProductsNamed(seeds: seq<ProductSeed>, first: int, now: Timestamp)
    requires forall s :: s in seeds ==> s.category in Categories && MinPrice <= s.price <= MaxPrice
    ensures forall p :: p in SeedProducts(seeds, first, now) ==>
      p.price > 0 && p.category.Some? && p.category.value != ""
  {
    var ps := SeedProducts(seeds, first, now);
    forall p | p in ps ensures p.price > 0 && p.category.Some? && p.category.value != "" {
      var i :| 0 <= i < |ps| && ps[i] == p;
      assert seeds[i] in seeds;
    }
  }
}
