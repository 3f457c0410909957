/**
 * The derived-view catalogue: the four on-demand views, the two
 * materialized views with their stored snapshots, and the unique indexes that
 * REFRESH MATERIALIZED VIEW CONCURRENTLY needs.
 *
 * Each administrative call runs on one connection in one transaction: its
 * statements take effect together at the commit, and a statement that fails
 * leaves the catalogue as it was. Which statements fail (a lock conflict, a
 * lost connection) is the environment's choice and comes in as a parameter;
 * the conditions the database itself checks (a view that does not exist, a
 * missing unique index, duplicate keys under a unique index) are modelled.
 */
module Materialized {
  import opened Relational
  import opened Schema
  import opened Views
  import opened ViewProperties

  datatype RefreshOutcome = RefreshedConcurrently | RefreshedBlocking | RefreshFailed

  /** Which of the four REFRESH statements the environment makes fail. */
  datatype RefreshFaults = RefreshFaults(
    weeklyConcurrent: bool, monthlyConcurrent: bool, weeklyBlocking: bool, monthlyBlocking: bool)

  /** The keys of the unique index on weekly_sales_report (week_start, top_category) are distinct. */
  ghost predicate WeeklyKeysUnique(rows: seq<WeeklyRow>)
  {
    forall i, j :: 0 <= i < j < |rows| ==> WeeklyKeyOf(rows[i]) != WeeklyKeyOf(rows[j])
  }

  /** The keys of the unique index on monthly_sales_summary (month_start) are distinct. */
  ghost predicate MonthStartsUnique(rows: seq<MonthlyRow>)
  {
    forall i, j :: 0 <= i < j < |rows| ==> rows[i].monthStart != rows[j].monthStart
  }

  /** REFRESH ... CONCURRENTLY succeeds on an existing view that has a unique index. */
  predicate ConcurrentRefreshSucceeds(exists_: bool, indexed: bool, fault: bool)
  {
    exists_ && indexed && !fault
  }

  /** A blocking REFRESH succeeds on any existing view. */
  predicate BlockingRefreshSucceeds(exists_: bool, fault: bool)
  {
    exists_ && !fault
  }

  /**
   * The outcome of refresh_materialized_views: both views concurrently in
   * one transaction; failing that, after a rollback, both views blocking in
   * a second transaction; failing that too, nothing.
   */
  function RefreshResult(weeklyExists: bool, monthlyExists: bool, weeklyIndexed: bool, monthlyIndexed: bool,
                         f: RefreshFaults): (r: RefreshOutcome)
    ensures r != RefreshFailed ==> weeklyExists && monthlyExists
    ensures r == RefreshedConcurrently <==>
      weeklyExists && monthlyExists && weeklyIndexed && monthlyIndexed && !f.weeklyConcurrent && !f.monthlyConcurrent
    ensures r == RefreshedBlocking ==> !f.weeklyBlocking && !f.monthlyBlocking
  {
    if ConcurrentRefreshSucceeds(weeklyExists, weeklyIndexed, f.weeklyConcurrent)
       && ConcurrentRefreshSucceeds(monthlyExists, monthlyIndexed, f.monthlyConcurrent)
    then RefreshedConcurrently
    else if BlockingRefreshSucceeds(weeklyExists, f.weeklyBlocking)
       && BlockingRefreshSucceeds(monthlyExists, f.monthlyBlocking)
    then RefreshedBlocking
    else RefreshFailed
  }

  class MaterializedViews {
    /** daily_sales, category_analysis, customer_analytics and order_details exist; they are computed on read. */
    var regularViews: bool
    /** The stored snapshot of weekly_sales_report, or None when the view does not exist. */
    var weekly: Option<seq<WeeklyRow>>
    var monthly: Option<seq<MonthlyRow>>
    /** idx_weekly_sales_week and idx_monthly_sales_month exist. */
    var weeklyIndexed: bool
    var monthlyIndexed: bool

    /**
     * The views are created and dropped together, an index exists only on
     * an existing view, and the stored rows satisfy it.
     */
    ghost predicate Valid()
      reads this
    {
      && (regularViews <==> weekly.Some?)
      && (weekly.Some? <==> monthly.Some?)
      && (weeklyIndexed ==> weekly.Some? && WeeklyKeysUnique(weekly.value))
      && (monthlyIndexed ==> monthly.Some? && MonthStartsUnique(monthly.value))
    }

    /** A database without any derived view. */
    constructor()
      ensures Valid()
      ensures !regularViews && weekly.None? && monthly.None? && !weeklyIndexed && !monthlyIndexed
    {
      regularViews := false;
      weekly, monthly := None, None;
      weeklyIndexed, monthlyIndexed := false, false;
    }

    /**
     * create_analytical_views: (re)create the four views, drop and recreate
     * both materialized views from the facts in db, create their unique
     * indexes, commit. The unique indexes never reject the fresh contents, so
     * the call fails only when the environment makes a statement fail.
     */
    method CreateAnalyticalViews(db: Db, fault: bool) returns (ok: bool)
      requires Valid()
      modifies this
      ensures Valid()
      ensures ok <==> !fault
      ensures ok ==> && regularViews
                     && weekly == Some(WeeklySalesReport(db)) && monthly == Some(MonthlySalesSummary(db))
                     && weeklyIndexed && monthlyIndexed
      ensures !ok ==> unchanged(this)
    {
      if fault {
        return false;
      }
      // DROP ... IF EXISTS removes a view with its indexes; CREATE computes it now.
      var w := WeeklySalesReport(db);
      var m := MonthlySalesSummary(db);
      // CREATE UNIQUE INDEX accepts the rows just stored: their keys are distinct.
      RefreshedSnapshotsKeyed(db);
      regularViews := true;
      weekly, monthly := Some(w), Some(m);
      weeklyIndexed, monthlyIndexed := true, true;
      ok := true;
    }

    /**
     * One transaction of REFRESH MATERIALIZED VIEW statements on both views,
     * then COMMIT: both snapshots become the recomputation over db, or, when
     * a statement fails, the transaction is rolled back and neither changes.
     */
    method RefreshTransaction(db: Db, concurrently: bool, weeklyFault: bool, monthlyFault: bool) returns (ok: bool)
      requires Valid()
      modifies this
      ensures Valid()
      ensures ok <==>
        if concurrently then
          ConcurrentRefreshSucceeds(old(weekly).Some?, weeklyIndexed, weeklyFault)
          && ConcurrentRefreshSucceeds(old(monthly).Some?, monthlyIndexed, monthlyFault)
        else
          BlockingRefreshSucceeds(old(weekly).Some?, weeklyFault) && BlockingRefreshSucceeds(old(monthly).Some?, monthlyFault)
      ensures ok ==> weekly == Some(WeeklySalesReport(db)) && monthly == Some(MonthlySalesSummary(db))
      ensures !ok ==> unchanged(this)
      ensures regularViews == old(regularViews)
      ensures weeklyIndexed == old(weeklyIndexed) && monthlyIndexed == old(monthlyIndexed)
    {
      var weeklyOk := if concurrently then ConcurrentRefreshSucceeds(weekly.Some?, weeklyIndexed, weeklyFault)
                      else BlockingRefreshSucceeds(weekly.Some?, weeklyFault);
      if !weeklyOk {
        return false;
      }
      var w := Some(WeeklySalesReport(db));
      var monthlyOk := if concurrently then ConcurrentRefreshSucceeds(monthly.Some?, monthlyIndexed, monthlyFault)
                       else BlockingRefreshSucceeds(monthly.Some?, monthlyFault);
      if !monthlyOk {
        return false;
      }
      RefreshedSnapshotsKeyed(db);
      weekly, monthly := w, Some(MonthlySalesSummary(db));
      ok := true;
    }

    /**
     * refresh_materialized_views: the concurrent transaction, and after its
     * rollback the blocking one. On success both snapshots are recomputed from
     * db; on failure both keep their previous contents, since the first
     * transaction is rolled back and the second is never committed.
     */
    method Refresh(db: Db, f: RefreshFaults) returns (outcome: RefreshOutcome)
      requires Valid()
      modifies this
      ensures Valid()
      ensures outcome == RefreshResult(old(weekly).Some?, old(monthly).Some?, old(weeklyIndexed), old(monthlyIndexed), f)
      ensures outcome != RefreshFailed ==>
        weekly == Some(WeeklySalesReport(db)) && monthly == Some(MonthlySalesSummary(db))
      ensures outcome == RefreshFailed ==> weekly == old(weekly) && monthly == old(monthly)
      ensures regularViews == old(regularViews)
      ensures weeklyIndexed == old(weeklyIndexed) && monthlyIndexed == old(monthlyIndexed)
    {
      var ok := RefreshTransaction(db, true, f.weeklyConcurrent, f.monthlyConcurrent);
      if ok {
        return RefreshedConcurrently;
      }
      ok := RefreshTransaction(db, false, f.weeklyBlocking, f.monthlyBlocking);
      if ok {
        return RefreshedBlocking;
      }
      return RefreshFailed;
    }

    /** drop_all_views: every view is dropped with CASCADE, which drops the indexes too. */
    method DropAllViews(fault: bool) returns (ok: bool)
      requires Valid()
      modifies this
      ensures Valid()
      ensures ok <==> !fault
      ensures ok ==> !regularViews && weekly.None? && monthly.None? && !weeklyIndexed && !monthlyIndexed
      ensures !ok ==> unchanged(this)
    {
      if fault {
        return false;
      }
      regularViews := false;
      weekly, monthly := None, None;
      weeklyIndexed, monthlyIndexed := false, false;
      ok := true;
    }
  }

  // ---------------------------------------------------------------------------
  // The refresh protocol
  // ---------------------------------------------------------------------------

  /** With both unique indexes in place and no interference, the non-blocking path is taken. */
  lemma RefreshConcurrentWhenIndexed(f: RefreshFaults)
    requires !f.weeklyConcurrent && !f.monthlyConcurrent
    ensures RefreshResult(true, true, true, true, f) == RefreshedConcurrently
  {
  }

  /**
   * A missing unique index makes the concurrent refresh fail; the engine
   * falls back to the blocking refresh, which succeeds unless it is itself
   * interfered with.
   */
  lemma RefreshFallsBackWithoutIndex(weeklyIndexed: bool, monthlyIndexed: bool, f: RefreshFaults)
    requires !weeklyIndexed || !monthlyIndexed
    requires !f.weeklyBlocking && !f.monthlyBlocking
    ensures RefreshResult(true, true, weeklyIndexed, monthlyIndexed, f) == RefreshedBlocking
  {
  }

  /** The refresh is lost only when the blocking fallback fails as well as the concurrent path. */
  lemma RefreshFailsOnlyIfBothPathsFail(we: bool, me: bool, wi: bool, mi: bool, f: RefreshFaults)
    ensures RefreshResult(we, me, wi, mi, f) == RefreshFailed <==>
      && !(ConcurrentRefreshSucceeds(we, wi, f.weeklyConcurrent) && ConcurrentRefreshSucceeds(me, mi, f.monthlyConcurrent))
      && !(BlockingRefreshSucceeds(we, f.weeklyBlocking) && BlockingRefreshSucceeds(me, f.monthlyBlocking))
  {
  }

  /** Refreshing a view that does not exist always fails. */
  lemma RefreshNeedsViews(we: bool, me: bool, wi: bool, mi: bool, f: RefreshFaults)
    requires !we || !me
    ensures RefreshResult(we, me, wi, mi, f) == RefreshFailed
  {
  }

  /**
   * Two refreshes in succession with no change to the facts: once the first
   * has succeeded, the second leaves exactly the contents the first produced,
   * whichever path it takes or whether it fails.
   */
  method RefreshTwice(v: MaterializedViews, db: Db, f1: RefreshFaults, f2: RefreshFaults)
    returns (o1: RefreshOutcome, o2: RefreshOutcome, w1: Option<seq<WeeklyRow>>, m1: Option<seq<MonthlyRow>>)
    requires v.Valid()
    modifies v
    ensures v.Valid()
    ensures o1 != RefreshFailed ==> w1 == Some(WeeklySalesReport(db)) && m1 == Some(MonthlySalesSummary(db))
    ensures o1 != RefreshFailed ==> v.weekly == w1 && v.monthly == m1
    ensures o1 != RefreshFailed ==> o2 != RefreshFailed || f2.weeklyBlocking || f2.monthlyBlocking
  {
    o1 := v.Refresh(db, f1);
    w1, m1 := v.weekly, v.monthly;
    o2 := v.Refresh(db, f2);
  }

  /** After a successful refresh the stored rows are keyed as the unique indexes demand. */
  lemma RefreshedSnapshotsKeyed(db: Db)
    ensures WeeklyKeysUnique(WeeklySalesReport(db))
    ensures MonthStartsUnique(MonthlySalesSummary(db))
  {
    WeeklyReportKeyed(db);
    MonthlyMonthStartsUnique(db);
  }
}
