# postgre-sales-analytics, modelled in Dafny

The system is a small PostgreSQL sales database driven from Python. It has these parts:

- **Schema.** Four tables, `users`, `products`, `orders` and `order_items`. Each has a SERIAL key, foreign keys, a status CHECK, a quantity CHECK and a generated `subtotal` column.
- **Seeding.** A script fills the tables with 100 users, 50 products and 200 orders of one to four items in one transaction. Afterwards it counts orphaned rows and subtotals that do not match.
- **Views.** Four analytical views: `daily_sales`, `category_analysis`, `customer_analytics` and `order_details`.
- **Materialized views.** Two of them, `weekly_sales_report` and `monthly_sales_summary`, each with a unique index. They are refreshed concurrently, and with a blocking refresh when that fails.
- **Report tests.** Two test scripts check the weekly report and the consistency of revenue across the reports.

The model works as follows:

- **Money and time.** Money is integer cents, the exact value of `DECIMAL(10,2)`. A `TIMESTAMP` is integer seconds since 1970-01-01 00:00.
- **Tables.** A table is a sequence of rows in insertion order.
- **Writes.** The database that accepts writes is the class `FactStore.Store`. Its fields are the four tables, the four SERIAL counters and the last committed snapshot.
- **Constraint violations** are a `Result` error, and a rejected statement leaves the store unchanged.
- **Views** are functions of a database snapshot `Schema.Db`.
- **Materialized views** are the class `Materialized.MaterializedViews`. It holds the two stored snapshots and whether each one has its unique index.
- **The tests** are functions and methods that give their verdict (`True`/`False`) as a Boolean. They read the materialized snapshot as stored (`None` when the view does not exist), not the view recomputed over the tables. `Materialized.MaterializedViews.Refresh` and `CreateAnalyticalViews` set that snapshot to the view over the current data on success. The lemmas say when the tests pass on such a snapshot, and `ReportChecks.StaleSnapshotRejected` shows a stale one failing.

Modules, one per file:

- `Relational` holds the SQL semantics the views rely on:
  - SUM and COUNT
  - GROUP BY, where NULL forms a group of its own
  - COUNT(DISTINCT), which ignores NULL
  - lookup by primary key
  - ROUND to two decimals, half away from zero
- `Calendar`: `DATE`, `DATE_TRUNC('week')` (weeks start on an ISO Monday), `DATE_TRUNC('month')`, `EXTRACT(YEAR|MONTH)` on the proleptic Gregorian calendar.
- `Schema`: rows, snapshots, the declared constraints (`WellFormed`), and lemmas that every accepted write keeps them.
- `FactStore`: the store class with INSERT, UPDATE, DELETE, COMMIT and ROLLBACK.
- `Views`: the six view definitions. `ViewProperties`, `Agreement` and `Visibility` hold the lemmas about them.
- `Materialized`: creating, refreshing and dropping the views.
- `Seeding`: `generate_sample_data` and `verify_data_integrity`.
- `ReportChecks`: `test_weekly_report_correctness` and `test_report_data_consistency`.
- `TypeChecks`: `test_data_types_and_constraints`.

## Model

| member | source | states |
|---|---|---|
| Relational.Count | scripts/generate_data.py:100-111 | COUNT(*) of the rows meeting a condition is at most the row count, and is zero exactly when no row meets it |
| Relational.Where | scripts/create_views.py:17-18 | A WHERE filter keeps exactly the rows that satisfy the condition and never adds rows |
| Relational.GroupKeys | scripts/create_views.py:19 | The GROUP BY keys are distinct, one per group, and every row's key is among them, NULL included |
| Relational.Group | scripts/create_views.py:19 | A group holds exactly the rows whose key equals the group's key |
| Relational.PartitionSum | scripts/create_views.py:110 | Summing a column group by group gives the same total as summing it over all rows |
| Relational.DistinctValues | scripts/create_views.py:13 | The non-NULL values of a column with duplicates removed: every non-NULL value appears, and nothing else does |
| Relational.CountDistinct | scripts/create_views.py:13 | COUNT(DISTINCT x) is at most the row count, and is zero exactly when every value is NULL |
| Relational.Lookup | database/init_database.py:33 | Finding a row by key returns a row with that key, and finds nothing exactly when no row has the key |
| Relational.LookupFinds | database/init_database.py:10 | With increasing primary keys, looking up a row's own key finds that row |
| Relational.RoundHalfAway | scripts/create_views.py:97-102 | ROUND(a / n, 2) in cents lies within half a cent of the exact quotient, an exact tie goes to the neighbour farther from zero, and the result has the sign of a |
| Relational.KeysOf | scripts/generate_data.py:48-52 | The fetched id column: one key per row, in table order |
| Calendar.DayOf | scripts/create_views.py:12 | DATE(ts) is the day whose 86400 seconds contain ts, for timestamps before 1970 as well |
| Calendar.WeekStart | scripts/create_views.py:81 | DATE_TRUNC('week', ts) is a midnight at most seven days before ts, not after it |
| Calendar.WeekdayIndex | scripts/create_views.py:81 | The weekday of a day number is one of seven values, Monday being 0 |
| Calendar.WeekStartIsMonday | scripts/create_views.py:81 | DATE_TRUNC('week', t) is a midnight on a Monday, and t falls within the seven days that follow it |
| Calendar.WeekStartCharacterised | scripts/create_views.py:81 | Any Monday midnight whose week contains t is DATE_TRUNC('week', t), so the week start is unique |
| Calendar.WeekStartIdempotent | scripts/create_views.py:110 | Truncating a week start to its week changes nothing |
| Calendar.MonthOfDay | scripts/create_views.py:120 | A day of the year falls in exactly one month, between that month's cumulative day bounds |
| Calendar.Civil | scripts/create_views.py:119-120 | The calendar date of a day number has a month from 1 to 12 and a day within that month's length, leap years included |
| Calendar.DaysBeforeYearStep | scripts/create_views.py:119 | The closed-form count of days before a year grows by 366 across a Gregorian leap year and by 365 across any other |
| Calendar.DayNumberOfCivil | scripts/create_views.py:118-120 | The date of a day number is a valid date, and counting days up to that date by the closed-form Gregorian day count gives the day number back |
| Calendar.CivilOfDayNumber | scripts/create_views.py:118-120 | Every valid Gregorian date is the date of its closed-form day number, so dates and day numbers correspond one to one |
| Calendar.CivilEpoch | scripts/create_views.py:81 | Day 0 is Thursday 1970-01-01 |
| Calendar.CivilYearZero | scripts/create_views.py:119-120 | The day count anchor falls on 0000-01-01 of the proleptic Gregorian calendar |
| Calendar.CivilLeapDay | scripts/create_views.py:118-120 | Day 11016 is 2000-02-29, a leap day of a year divisible by 400 |
| Calendar.CivilMonday | scripts/create_views.py:81 | Day 19723 is Monday 2024-01-01 |
| Calendar.CivilShift | scripts/create_views.py:118 | Stepping back k days within a month keeps the year and month and lowers the day by k |
| Calendar.MonthStartIsFirstOfMonth | scripts/create_views.py:118 | DATE_TRUNC('month') of a day is the first of the same year and month, and the day lies within that month |
| Calendar.MonthStart | scripts/create_views.py:118 | DATE_TRUNC('month', ts) is a midnight not after ts |
| Calendar.ExtractYear | scripts/create_views.py:119 | EXTRACT(YEAR) is never 0: years from 1 on are the calendar year, and the astronomical year y <= 0 is reported as y - 1 |
| Calendar.ExtractMonth | scripts/create_views.py:120 | EXTRACT(MONTH) lies between 1 and 12 |
| Calendar.MonthStartDeterminesYearMonth | scripts/create_views.py:118-120 | Two timestamps with the same month start have the same EXTRACT(YEAR) and EXTRACT(MONTH) |
| Calendar.MonthStartSameMonth | scripts/create_views.py:118-120 | Truncating to the month keeps the year and month, and truncating twice equals truncating once |
| Calendar.MonthStartBounds | scripts/create_views.py:118 | The month start is a midnight, is not after the timestamp, and is day 1 of its month |
| Schema.ParseStatus | database/init_database.py:36 | A status text is accepted only if it spells one of 'processing', 'completed' or 'cancelled' |
| Schema.ParseStatusName | database/init_database.py:36 | Every status spells back to itself, and its name fits VARCHAR(20) |
| Schema.WellFormed | database/init_database.py:9-51 | The declared constraints of the four tables: increasing SERIAL keys, unique e-mails, VARCHAR lengths, the quantity CHECK with the generated subtotal, and every non-NULL foreign key naming an existing row |
| Schema.AddUserWellFormed | database/init_database.py:9-18 | Appending a user with a fresh larger id, fitting lengths and an unused e-mail keeps every constraint, and adds only that row |
| Schema.AddProductWellFormed | database/init_database.py:21-28 | Appending a product with a larger id and fitting lengths keeps every constraint, with no condition on the price |
| Schema.AddOrderWellFormed | database/init_database.py:31-39 | Appending an order whose user is NULL or present keeps every constraint |
| Schema.AddItemWellFormed | database/init_database.py:42-51 | Appending an item with quantity > 0, the generated subtotal and present (or NULL) references keeps every constraint |
| Schema.ReplaceUserWellFormed | database/init_database.py:9-18 | An UPDATE of a user row that keeps its id, fits, and keeps e-mails unique keeps every constraint |
| Schema.ReplaceProductWellFormed | database/init_database.py:21-28 | An UPDATE of a product row that keeps its id keeps every constraint |
| Schema.ReplaceOrderWellFormed | database/init_database.py:31-39 | An UPDATE of an order row whose user reference is valid keeps every constraint |
| Schema.ReplaceItemWellFormed | database/init_database.py:42-51 | An UPDATE of an item row that keeps the CHECK, the generated column and its references keeps every constraint |
| Schema.RemoveUserWellFormed | database/init_database.py:33 | Deleting a user that no order references keeps every constraint |
| Schema.RemoveProductWellFormed | database/init_database.py:45 | Deleting a product that no item references keeps every constraint |
| Schema.RemoveOrderWellFormed | database/init_database.py:44 | Deleting an order together with its items (ON DELETE CASCADE) keeps every constraint |
| Schema.RemoveItemWellFormed | database/init_database.py:42-51 | Deleting an item keeps every constraint |
| FactStore.StatusColumn | database/init_database.py:36 | Storing into order_status: NULL is allowed; longer than 20 characters is a length error; otherwise the value is rejected exactly when it is not one of the three statuses |
| FactStore.Store.constructor | database/init_database.py:9-51 | The tables are created empty, with every SERIAL at 1 |
| FactStore.Store.InsertUser | database/init_database.py:9-18 | INSERT INTO users fails exactly when a column is too long (StringTooLong) or the e-mail is taken (UniqueViolation), leaving the store unchanged; otherwise it appends the row with the next id and both timestamps set to now |
| FactStore.Store.InsertProduct | database/init_database.py:21-28 | INSERT INTO products fails only on a too-long title or category; any price, negative included, is stored |
| FactStore.Store.InsertOrder | database/init_database.py:31-39 | INSERT INTO orders fails exactly on a bad status text or a missing referenced user; an omitted order_date (None) takes the column default CURRENT_TIMESTAMP, the parameter `now` |
| FactStore.Store.InsertOrderItem | database/init_database.py:42-51 | INSERT INTO order_items fails on quantity <= 0 (CheckViolation) or a missing order or product (ForeignKeyViolation); otherwise the stored subtotal is quantity * unit_price |
| FactStore.Store.UpdateUser | database/init_database.py:69-88 | UPDATE users by id: a missing id changes nothing; a failing row leaves the table unchanged; otherwise only that row changes, keeps its id and created_at, and gets updated_at set to now (trigger set_updated_at) |
| FactStore.Store.UpdateProduct | database/init_database.py:90-101 | UPDATE products by id, with the same outcomes and updated_at trigger |
| FactStore.Store.UpdateOrder | database/init_database.py:103-114 | UPDATE orders by id: the status and user reference are checked as on INSERT, and updated_at is set to now |
| FactStore.Store.UpdateOrderItem | database/init_database.py:116-127 | UPDATE order_items by id: quantity CHECK, references and the regenerated subtotal, with updated_at set to now |
| FactStore.Store.AppendOrder | database/init_database.py:31-39 | Writing an accepted order row appends it, advances the order SERIAL, and leaves the other tables alone |
| FactStore.Store.AppendItem | database/init_database.py:42-51 | Writing an accepted item row appends it, advances the item SERIAL, and leaves the other tables alone |
| FactStore.Store.WriteOrder | database/init_database.py:31-39 | Overwriting an order row in place changes only that position |
| FactStore.Store.WriteItem | database/init_database.py:42-51 | Overwriting an item row in place changes only that position |
| FactStore.Store.DeleteUser | database/init_database.py:33 | DELETE of a user fails with ForeignKeyViolation exactly when an order references it; otherwise the row is removed |
| FactStore.Store.DeleteProduct | database/init_database.py:45 | DELETE of a product fails exactly when an item references it; otherwise the row is removed |
| FactStore.Store.DeleteOrder | database/init_database.py:44 | DELETE of an order removes it and exactly the items that reference it (ON DELETE CASCADE) |
| FactStore.Store.DeleteOrderItem | database/init_database.py:42-51 | DELETE of an item removes exactly the row with that id |
| FactStore.Store.Commit | scripts/generate_data.py:116 | COMMIT makes the current tables the committed snapshot without changing them |
| FactStore.Store.Rollback | scripts/generate_data.py:119-120 | ROLLBACK restores the last committed snapshot |
| Views.JoinSale | scripts/create_views.py:32-35 | The inner join of an item with a completed order and its product gives a line whose keys match |
| Views.SaleLinesOf | scripts/create_views.py:32-35 | Every joined line comes from a listed item whose order is completed and whose product exists |
| Views.JoinOrder | scripts/create_views.py:126-128 | Joining an item to its order, kept only when the order is completed |
| Views.OrderLinesOf | scripts/create_views.py:126-128 | Every orders-to-items line pairs an item with its completed order |
| Views.JoinDetail | scripts/create_views.py:68-71 | The join of an item with its order, that order's user and the item's product, with all keys matching |
| Views.DetailLinesOf | scripts/create_views.py:68-71 | Every detail line comes from a listed item and an existing order |
| Views.CompletedOrders | scripts/create_views.py:17-18 | Exactly the orders with status 'completed' |
| Views.DailySales | scripts/create_views.py:9-20 | daily_sales has one row per distinct sale day, in group-key order |
| Views.CategoryAnalysis | scripts/create_views.py:23-37 | category_analysis has one row per distinct category, NULL included |
| Views.MaxDate | scripts/create_views.py:51 | MAX(order_date) is NULL exactly on no rows; otherwise it is one of the dates and no date exceeds it |
| Views.CompletedOrdersOf | scripts/create_views.py:53 | The LEFT JOIN condition: exactly the user's completed orders |
| Views.CustomerAnalytics | scripts/create_views.py:40-55 | customer_analytics has one row per user, in table order, counting that user's completed orders |
| Views.DetailAggregate | scripts/create_views.py:66-67 | items_count equals the number of product entries joined in STRING_AGG |
| Views.OrderDetails | scripts/create_views.py:58-73 | order_details has one row per order with at least one joined item, each counting at least one item |
| Views.WeeklyAggregate | scripts/create_views.py:80-105 | A weekly row carries its (week, category) key; a non-empty group has a positive order count; the average is the rounded quotient and is non-negative when revenue is |
| Views.WeeklySalesReport | scripts/create_views.py:78-111 | weekly_sales_report has one row per distinct (week start, category) pair of completed sales |
| Views.MonthlySalesSummary | scripts/create_views.py:115-130 | monthly_sales_summary has one row per distinct (month start, year, month) key of completed order lines |
| ViewProperties.WeeklyReportKeyed | scripts/create_views.py:135-136 | Every sale's (week, category) key has a report row, every row's key comes from a sale, no two rows share a key (the unique index holds), and each row counts at least one order |
| ViewProperties.DailySalesKeyed | scripts/create_views.py:9-20 | Every completed order's day has a row, rows come from completed orders, days are unique, and each row counts an order |
| ViewProperties.CategoryAnalysisKeyed | scripts/create_views.py:23-37 | Every sold category has a row, rows come from sales, categories are unique, and each row counts an order |
| ViewProperties.OrderDetailsKeyed | scripts/create_views.py:58-73 | Every joined order appears, and order ids in order_details are unique |
| ViewProperties.OrderDetailsRows | scripts/create_views.py:66-72 | Every order_details row comes from a joined order, and items_count equals its number of products, at least one |
| ViewProperties.CustomerAnalyticsNulls | scripts/create_views.py:48-53 | A customer with no completed orders has total_orders 0 and NULL total_spent, avg_order_value and last_order_date, and only such a customer does |
| ViewProperties.CustomerLastOrderDate | scripts/create_views.py:51-53 | last_order_date is the latest date among the customer's completed orders |
| ViewProperties.WeeklyRevenuePartition | scripts/create_views.py:91 | The weekly rows' revenues add up to the subtotal of all completed sales |
| ViewProperties.CategoryRevenuePartition | scripts/create_views.py:29 | The category rows' revenues add up to the subtotal of all completed sales |
| ViewProperties.DailyRevenuePartition | scripts/create_views.py:14 | The daily rows' revenues add up to the total of all completed orders |
| ViewProperties.WeeklyRowAt | scripts/create_views.py:106-110 | Row i of the weekly report aggregates the non-empty group of its key |
| ViewProperties.WeeklyAverageRounded | scripts/create_views.py:97-102 | Each weekly average times the order count is within half an order-count of cents of the revenue |
| ViewProperties.WeeklyProductsAtMostItems | scripts/create_views.py:94-105 | When every quantity is positive, a weekly row's distinct product count is at most its items sold |
| ViewProperties.WeeklyRowNonNegative | scripts/create_views.py:91-102 | With non-negative unit prices, a weekly row's revenue, items sold and average are non-negative |
| ViewProperties.SaleLinesNonNegative | scripts/create_views.py:91-94 | With non-negative unit prices, any set of completed sale lines has non-negative subtotal and quantity sums |
| ViewProperties.WeeklyNonNegative | scripts/create_views.py:91-102 | When every stored unit price is non-negative (the schema has no CHECK on unit_price), every row of the weekly report has non-negative revenue, items sold and average |
| ViewProperties.WeeklyWeekStarts | scripts/create_views.py:81 | Each week_start is a Monday midnight, and every sale falls in its row's week |
| ViewProperties.MonthlyRowWitness | scripts/create_views.py:126-129 | Every monthly row's key is the key of some completed order line |
| ViewProperties.MonthKeyOfValid | scripts/create_views.py:118-120 | month_start is the first of a month, and year and month are that month's |
| ViewProperties.MonthlyMonthKeys | scripts/create_views.py:118-120 | Every monthly row's month_start is day 1, consistent with its year and month columns |
| ViewProperties.MonthKeyDeterminedByStart | scripts/create_views.py:129 | Grouping by (month_start, year, month) is the same as grouping by month_start |
| ViewProperties.MonthlyMonthStartsUnique | scripts/create_views.py:139-140 | No two monthly rows share a month_start, so the unique index holds |
| ViewProperties.CategoryAveragePerItemRow | scripts/create_views.py:30 | avg_product_price weighs each product by its number of joined item rows: |a| rows at price pa and |b| rows at price pb average to ROUND((|a| pa + |b| pb) / (|a| + |b|)) |
| ViewProperties.CategoryAverageExample | scripts/create_views.py:30 | Two item rows at 10.00 and one at 40.00 average to 20.00, not to the 25.00 average of the two products |
| Agreement.TotalsConsistent | scripts/generate_data.py:75-94 | Every order's total_amount equals the sum of its items' subtotals, which is what the generator writes |
| Agreement.ItemsOf | scripts/create_views.py:107 | Exactly the items referencing a given order |
| Agreement.OrderSaleLines | scripts/create_views.py:32-35 | A completed order's sale lines have the same subtotal sum as its items |
| Agreement.CompletedRevenueIsSaleRevenue | scripts/generate_data.py:89-94 | When every order total equals its items' subtotal sum and completed items have products, completed-order revenue equals completed-sale revenue |
| Agreement.RevenueAgreement | tests/test_reports_correctness.py:123-137 | Under the same conditions daily_sales, category_analysis and weekly_sales_report all total the completed orders' revenue |
| Agreement.OrderOrderLines | scripts/create_views.py:126-127 | A completed order appears in the orders-to-items join once per item, each time with its full total |
| Agreement.MonthlyRevenuePartition | scripts/create_views.py:123 | The monthly rows' revenues add up to total_amount summed over joined order lines |
| Agreement.MonthlyRevenueCountsItems | scripts/create_views.py:123-127 | monthly total_revenue counts each completed order's total once per item, not once |
| Visibility.WithOrder | scripts/generate_data.py:69-94 | The database after one more order and its items, with the other tables untouched |
| Visibility.JoinsAfterOrder | scripts/create_views.py:109 | A new non-completed order changes no existing join and contributes no join of its own |
| Visibility.NonCompletedOrderInvisible | scripts/create_views.py:18 | Adding a processing or cancelled order with its items leaves daily_sales, category_analysis, weekly_sales_report and monthly_sales_summary unchanged |
| Materialized.MaterializedViews.constructor | scripts/create_views.py:150-173 | No view exists before creation |
| Materialized.MaterializedViews.CreateAnalyticalViews | scripts/create_views.py:150-173 | In one transaction: the regular views and both snapshots computed over the data, with their unique indexes; on failure nothing changes. The class invariant keeps the regular views and both snapshots existing together |
| Materialized.MaterializedViews.RefreshTransaction | scripts/create_views.py:183-198 | One refresh transaction succeeds exactly when both statements do (CONCURRENTLY also needs the unique index), and then both snapshots are recomputed; otherwise neither changes |
| Materialized.MaterializedViews.Refresh | scripts/create_views.py:175-205 | refresh_materialized_views tries both views concurrently; on failure it rolls back and refreshes both blocking; the outcome is RefreshResult, and a failure keeps the old snapshots |
| Materialized.MaterializedViews.DropAllViews | scripts/create_views.py:207-233 | On success every view and index is gone; on failure nothing changes |
| Materialized.RefreshResult | scripts/create_views.py:175-205 | The outcome of refresh_materialized_views: it succeeds only when both views exist; it is concurrent exactly when both exist, both have their unique index and neither concurrent statement fails; a blocking success needs neither blocking statement to fail |
| Materialized.RefreshConcurrentWhenIndexed | scripts/create_views.py:183-186 | With both views created and indexed and no fault, the concurrent path is taken |
| Materialized.RefreshFallsBackWithoutIndex | scripts/create_views.py:192-199 | Without a unique index the concurrent refresh fails and the blocking path succeeds |
| Materialized.RefreshFailsOnlyIfBothPathsFail | scripts/create_views.py:192-201 | The refresh fails exactly when both the concurrent and the blocking transaction fail |
| Materialized.RefreshNeedsViews | scripts/create_views.py:183-201 | Refreshing a view that does not exist fails on both paths |
| Materialized.RefreshTwice | scripts/create_views.py:175-205 | After a successful refresh the snapshots equal the views over the data; a second refresh fails only if a blocking statement fails |
| Materialized.RefreshedSnapshotsKeyed | scripts/create_views.py:133-140 | Refreshed snapshots never break the unique indexes on (week_start, top_category) and month_start |
| Seeding.Prefix | scripts/generate_data.py:21-25 | Python slicing s[:n]: a prefix of s, no longer than n, all of s when it fits |
| Seeding.SeedUser | scripts/generate_data.py:19-26 | A generated user's truncated columns fit their VARCHAR limits |
| Seeding.SeedProduct | scripts/generate_data.py:36-41 | A generated product with a listed category fits its VARCHAR limits |
| Seeding.SeedUsers | scripts/generate_data.py:19-26 | The user rows, one per seed, with consecutive ids |
| Seeding.SeedProducts | scripts/generate_data.py:36-41 | The product rows, one per seed, with consecutive ids |
| Seeding.StatusChoicesAccepted | scripts/generate_data.py:71 | Every status the generator chooses is accepted by the CHECK and stored as itself |
| Seeding.FreshOrderHasNoItems | scripts/generate_data.py:73-75 | A freshly numbered order has no items yet, so its running total starts at 0 |
| Seeding.InsertSeedUser | scripts/generate_data.py:28-31 | One user insert of the batch fails exactly on a duplicate e-mail, and otherwise extends the table by that seed's row |
| Seeding.InsertSeedProduct | scripts/generate_data.py:43-46 | One product insert of the batch always succeeds and extends the table by that seed's row |
| Seeding.InsertUsers | scripts/generate_data.py:28-31 | executemany over the users: either a UniqueViolation or all rows appended with consecutive ids |
| Seeding.InsertProducts | scripts/generate_data.py:43-46 | executemany over the products appends all rows with consecutive ids |
| Seeding.InsertSeededItem | scripts/generate_data.py:79-89 | One item row is appended: for the given order and product, with the given quantity, the product's current price and subtotal quantity * price, under the next item id; the order's subtotal sum grows by that subtotal |
| Seeding.InsertItems | scripts/generate_data.py:78-89 | The item loop appends one item per choice, in choice order: the k-th new row has the k-th choice's product and quantity at that product's price; the returned running total equals what they add to the order's subtotal sum |
| Seeding.InsertEmptyOrder | scripts/generate_data.py:69-73 | The order is inserted with total 0 and the chosen user, date and status, and RETURNING gives the new id |
| Seeding.SetOrderTotal | scripts/generate_data.py:91-94 | UPDATE sets only total_amount of the just-inserted order (and updated_at through the trigger); its user, date, status and created_at stay as stored |
| Seeding.SeedOrder | scripts/generate_data.py:65-94 | One order with its items: the order row is appended with the chosen user, date and status, its new items follow the item choices in order (product, quantity, current price), and its stored total equals the sum of its items' subtotals |
| Seeding.OrdersLoopStep | scripts/generate_data.py:65-94 | One loop round keeps the invariant: new orders match the choices, new items are seeded items, totals stay consistent |
| Seeding.SeedOrderStep | scripts/generate_data.py:65-94 | One iteration of the order loop on the store preserves the loop invariant |
| Seeding.SeedOrders | scripts/generate_data.py:65-94 | After the loop, one order per choice with consecutive ids; each new order has exactly as many items as its choice lists and a total equal to their subtotal sum, whatever the older orders hold |
| Seeding.OrphansAreNulls | scripts/generate_data.py:100-111 | In a database that keeps its foreign keys, the only orphans the NOT EXISTS queries count are NULL references |
| Seeding.NewOrdersHaveUsers | scripts/generate_data.py:66-71 | Orders the generator inserts never have a NULL user |
| Seeding.NewItemsHaveReferences | scripts/generate_data.py:84-87 | Items the generator inserts never have a NULL order or product |
| Seeding.OrphanedOrders | scripts/generate_data.py:100-104 | The NOT EXISTS count of orders: at most the order count, and zero exactly when every order has a non-NULL user that exists |
| Seeding.OrphanedItems | scripts/generate_data.py:106-111 | The NOT EXISTS count of items: at most the item count, and zero exactly when every item names an existing order and an existing product |
| Seeding.NoOrphansAdded | scripts/generate_data.py:100-111 | Appending rows without NULL references leaves both orphan counts unchanged |
| Seeding.NoNewOrphans | scripts/generate_data.py:100-111 | The orphan counts after seeding equal those before it |
| Seeding.VerifyDataIntegrity | scripts/generate_data.py:127-164 | The counts reported: correct plus incorrect subtotals equal the item count, and the incorrect count is zero exactly when every subtotal matches |
| Seeding.IntegrityOfWellFormed | scripts/generate_data.py:152-157 | Thanks to the generated column, a database that keeps its constraints has no incorrect subtotal |
| Seeding.FetchedIdsPresent | scripts/generate_data.py:48-52 | Every fetched id names an existing row |
| Seeding.GenerateSampleData | scripts/generate_data.py:10-125 | The whole pass in one transaction: a rejected user row rolls back everything; otherwise the users, products and orders are committed, each new order with its choice's 1 to 4 items and a total equal to their subtotal sum, no orphan is added, and order totals stay consistent with their items |
| ReportChecks.Passes | tests/test_reports_correctness.py:42-51 | The eight field checks of one row: a non-empty category and non-negative counts and money; the week_start check always holds |
| ReportChecks.FirstFailing | tests/test_reports_correctness.py:53-62 | The first check that fails, or none exactly when every check passes; all earlier checks pass |
| ReportChecks.FailedCheckMeaning | tests/test_reports_correctness.py:42-62 | A row records no problem exactly when it passes all eight field checks; a recorded check is one it fails |
| ReportChecks.ProblemsOf | tests/test_reports_correctness.py:37-62 | The problem list holds one entry per failing row, in row order, each naming the row's first failing check, and is empty exactly when no row fails |
| ReportChecks.FirstFailedCheck | tests/test_reports_correctness.py:53-62 | The inner loop with its break returns exactly the first failing check of the row |
| ReportChecks.ValidateRows | tests/test_reports_correctness.py:36-62 | The outer loop builds exactly the specified problem list |
| ReportChecks.BadAverage | tests/test_reports_correctness.py:77-82 | A row with orders and revenue whose average is more than 1.00 away from revenue / orders |
| ReportChecks.IllogicalProducts | tests/test_reports_correctness.py:87-91 | A row with items sold but fewer items than distinct products |
| ReportChecks.TestWeeklyReportCorrectness | tests/test_reports_correctness.py:10-112 | Over the stored weekly_sales_report snapshot: the verdict is False when the view does not exist, and otherwise True exactly when every row passes the field checks, the average-order check and the products-versus-items check |
| ReportChecks.AverageWithinTolerance | tests/test_reports_correctness.py:77-82 | An average rounded to the cent is within 1.00 of revenue / orders |
| ReportChecks.WeeklyReportAccepted | tests/test_reports_correctness.py:36-93 | With the constraints kept, non-negative unit prices and every product given a non-empty category, every row of the model's weekly report passes all three checks |
| ReportChecks.WeeklyRowAccepted | tests/test_reports_correctness.py:42-84 | The same, for one row: the field checks pass and the average is within tolerance |
| ReportChecks.WeeklyRowAverage | tests/test_reports_correctness.py:77-84 | No weekly row fails the average-order check, whatever the data |
| ReportChecks.RowPassesWhen | tests/test_reports_correctness.py:42-51 | A row with a non-empty category and non-negative money and counts passes every field check |
| ReportChecks.WeeklyCategoryOfProduct | scripts/create_views.py:82 | Each weekly top_category is the category of some product |
| ReportChecks.WeeklyRowOfSale | scripts/create_views.py:82 | Every completed sale shows up in a weekly row carrying its product's category |
| ReportChecks.NullCategoryRejected | tests/test_reports_correctness.py:44 | A completed sale of a product with NULL category makes the validator record a problem |
| ReportChecks.TestReportDataConsistency | tests/test_reports_correctness.py:114-148 | The verdict of test_report_data_consistency: the weekly snapshot exists, and the revenue of completed orders is within 1.00 of the category_analysis total and of the weekly snapshot's total. category_analysis is computed from the tables; the model assumes it exists whenever the weekly snapshot does, which the class invariant of `Materialized.MaterializedViews` keeps |
| ReportChecks.ConsistencyHolds | tests/test_reports_correctness.py:114-148 | When order totals match their items, completed items have products and the weekly snapshot was last refreshed over the current tables, the three revenue totals are exactly equal, so the test passes |
| ReportChecks.StaleSnapshotRejected | tests/test_reports_correctness.py:122-137 | A weekly snapshot refreshed before a completed order was added no longer agrees with the orders' revenue, and the test fails even though the tables keep every constraint |
| TypeChecks.WeeklyStatsOf | tests/test_data_types.py:39-47 | The statistics query: the record count, and zero NULL categories (or negative revenues) exactly when none exist |
| TypeChecks.TestDataTypesAndConstraints | tests/test_data_types.py:9-62 | The verdict is True exactly when the weekly snapshot exists, prices and quantities are non-negative, subtotals are within a cent, and the snapshot has rows, none with a NULL category or negative revenue |
| TypeChecks.WeeklyNonEmpty | tests/test_data_types.py:49 | The weekly report has rows exactly when some completed item joins a product |
| TypeChecks.DataTypesAccepted | tests/test_data_types.py:9-62 | With the constraints kept, non-negative prices, named categories, at least one completed sale and a weekly snapshot refreshed over the current tables, the test passes |
| TypeChecks.ItemsAccepted | tests/test_data_types.py:24-35 | The quantity CHECK and the generated subtotal make both item counts zero |
| TypeChecks.WeeklyRowsAccepted | tests/test_data_types.py:43-52 | With named categories and non-negative unit prices no weekly row has a NULL category or negative revenue |
| TypeChecks.NoSalesRejected | tests/test_data_types.py:49 | Without completed sales the test fails on a snapshot refreshed over the current tables |
| TypeChecks.NegativePriceAdmitted | tests/test_data_types.py:18-20 | A database meeting every declared constraint can hold a negative price, and this test then fails whatever the weekly snapshot holds |
| TypeChecks.SeededProductsNamed | scripts/generate_data.py:34-41 | Generated products have a positive price and a non-empty category |

## Left out

- Connections, cursors, `print` output and `show_view_info` are left out, and so are `reports/weekly_sales_report.py`, `main.py`, `database/config.py`, `tests/run_tests.py` and `tests/test_relationships.py`. They are I/O or callers around the core. `database/config.py` is not part of this model.
- Faker names, `random` choices and `datetime.now()` become parameters: seeds, choices and `endDate`. `endDate` is the script's clock, separate from the database's `now`. The bounds they satisfy become preconditions: one to four items, quantity from 1 to 3, prices from 10.00 to 1000.00, one of the five categories, a date in the last 90 days.
- Floating point is not modelled. `round(random.uniform(10, 1000), 2)` is an integer number of cents. Python's `Decimal` sums and `round(order_total, 2)` are exact in cents.
- `DECIMAL(10,2)` overflow and `SERIAL` overflow are not modelled, because integers are unbounded.
- `ORDER BY` in every view and query is not modelled. View rows come in the order the groups first appear, and the properties do not depend on it. `STRING_AGG` is a list of product entries; its order and text format are not modelled.
- A failed INSERT leaves the SERIAL counter where it was. PostgreSQL consumes the sequence value. The model only compares ids for equality, so no property depends on this.
- In the model, `order_date` is never NULL, because the schema's default fills it. An explicit NULL date is not modelled. The `null_weeks` count of the data-type test is therefore always 0, and `TypeChecks.WeeklyStatsOf` has no field for it.
- The schema and the store disagree about `products.price`. The schema declares no CHECK on it, so the store accepts negative prices. Lemmas that need non-negative money take it as a hypothesis, and `TypeChecks.NegativePriceAdmitted` shows the consequence.
- `category_analysis` has no `revenue_share` column; the view definition computes none.
- `ReportChecks.TestWeeklyReportCorrectness`: the rounding check (`::text ~ '\.\d{3,}'`) is always satisfied with integer cents, so it is not modelled. The average check treats `revenue / orders` as an exact rational; NUMERIC division precision is not modelled.
- `ReportChecks.Passes`: the `week_start` check compares the value's type with the type of the same value, so it always holds. The Python type tests (`isinstance`) are implied by the column types.
- An exception raised inside a test or the generator is modelled as its result: a `False` verdict, or a rollback with `SeedFailed`. The `NameError` that `finally: if conn` would raise after a failed connect is not modelled.
- `Seeding.GenerateSampleData` requires that the store has no uncommitted changes when it starts. The script opens a fresh connection, so there are none.
- `ReportChecks.FirstFailedCheck` is the inner loop of the validator written as a method of its own. The outer loop calls it once per row.
- `now` is a parameter of each write, not tied to a transaction. PostgreSQL gives every statement of one transaction the same `CURRENT_TIMESTAMP` and `NOW()`, the transaction's start time; the model does not capture that all rows written in one transaction share one timestamp.
- Concurrency between sessions is not modelled, including what `REFRESH ... CONCURRENTLY` allows readers to see. A fault in a statement is a Boolean parameter.
- `updated_at` triggers are part of the UPDATE methods. The trigger DDL (`IF NOT EXISTS` on `pg_trigger`) and the secondary indexes of the base tables do not change results and are not modelled.
