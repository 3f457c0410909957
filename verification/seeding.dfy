/**
 * The sample-data generator: one pass that inserts users, products and
 * orders with their items into the fact store inside one transaction, sets
 * each order's total_amount to the sum of its items, counts orphaned rows
 * and commits, or rolls everything back when a statement fails.
 *
 * What Faker and random produce is taken as input: the raw names, the
 * prices already rounded to cents, the chosen indexes into the fetched id
 * lists, the dates, statuses, item counts and quantities. The ranges the
 * generator draws from are preconditions.
 */
module Seeding {
  import opened Relational
  import opened Schema
  import opened FactStore
  import opened Views
  import opened Agreement

  const UserCount: nat := 100
  const ProductCount: nat := 50
  const OrderCount: nat := 200
  const Categories: seq<string> := ["Electronics", "Books", "Clothing", "Home & Garden", "Sports"]
  /** random.choice over this list: 'completed' is drawn twice as often. */
  const StatusChoices: seq<string> := ["completed", "completed", "processing", "cancelled"]
  /** random.uniform(10, 1000) rounded to the cent. */
  const MinPrice: Cents := 1000
  const MaxPrice: Cents := 100000
  const MaxItemsPerOrder: nat := 4
  const MaxQuantity: nat := 3
  /** Order dates lie in the 90 days before the start of the run. */
  const WindowSeconds: int := 90 * 86400

  datatype UserSeed = UserSeed(firstName: string, lastName: string, email: string, country: string, city: string)
  datatype ProductSeed = ProductSeed(title: string, price: Cents, category: string)
  datatype ItemChoice = ItemChoice(productIndex: nat, quantity: int)
  datatype OrderChoice = OrderChoice(userIndex: nat, orderDate: Timestamp, status: string, items: seq<ItemChoice>)

  /** The outcome of a pass: the two orphan counts it prints, or the error that aborted it. */
  datatype SeedResult = Seeded(orphanedOrders: nat, orphanedItems: nat) | SeedFailed(error: DbError)

  /** Python's s[:n]. */
  function Prefix(s: string, n: nat): (t: string)
    ensures |t| <= n && t <= s
    ensures |s| <= n ==> t == s
    ensures |s| > n ==> |t| == n
  {
    if |s| <= n then s else s[..n]
  }

  /** The row INSERT INTO users writes for a seed. */
  function SeedUser(s: UserSeed, id: int, now: Timestamp): (u: User)
    ensures UserFits(u.firstName, u.lastName, u.email, u.country, u.city)
  {
    User(id, Prefix(s.firstName, 45), Prefix(s.lastName, 45), Prefix(s.email, 95),
         Some(Prefix(s.country, 45)), Some(Prefix(s.city, 45)), now, now)
  }

  /** The row INSERT INTO products writes for a seed. */
  function SeedProduct(s: ProductSeed, id: int, now: Timestamp): (p: Product)
    ensures s.category in Categories ==> ProductFits(p.title, p.category)
  {
    Product(id, Prefix(s.title, 195), s.price, Some(s.category), now, now)
  }

  /** The rows executemany(INSERT INTO users ...) writes, with consecutive ids from first. */
  function SeedUsers(seeds: seq<UserSeed>, first: int, now: Timestamp): (us: seq<User>)
    ensures |us| == |seeds|
    ensures forall i :: 0 <= i < |seeds| ==> us[i] == SeedUser(seeds[i], first + i, now)
  {
    if |seeds| == 0 then []
    else SeedUsers(seeds[..|seeds| - 1], first, now) + [SeedUser(seeds[|seeds| - 1], first + |seeds| - 1, now)]
  }

  /** The rows executemany(INSERT INTO products ...) writes, with consecutive ids from first. */
  function SeedProducts(seeds: seq<ProductSeed>, first: int, now: Timestamp): (ps: seq<Product>)
    ensures |ps| == |seeds|
    ensures forall i :: 0 <= i < |seeds| ==> ps[i] == SeedProduct(seeds[i], first + i, now)
  {
    if |seeds| == 0 then []
    else SeedProducts(seeds[..|seeds| - 1], first, now) + [SeedProduct(seeds[|seeds| - 1], first + |seeds| - 1, now)]
  }

  /** Inserting the next seed's row extends the rows written so far. */
  lemma SeedUsersStep(base: seq<User>, seeds: seq<UserSeed>, i: nat, first: int, now: Timestamp)
    requires i < |seeds|
    ensures base + SeedUsers(seeds[..i + 1], first, now) == base + SeedUsers(seeds[..i], first, now) + [SeedUser(seeds[i], first + i, now)]
  {
    assert seeds[..i + 1][..i] == seeds[..i];
  }

  lemma SeedProductsStep(base: seq<Product>, seeds: seq<ProductSeed>, i: nat, first: int, now: Timestamp)
    requires i < |seeds|
    ensures base + SeedProducts(seeds[..i + 1], first, now) == base + SeedProducts(seeds[..i], first, now) + [SeedProduct(seeds[i], first + i, now)]
  {
    assert seeds[..i + 1][..i] == seeds[..i];
  }

  /**
   * The choices for one order stay within the ranges the generator draws
   * from. endDate is the script's own clock (datetime.now()), read after the
   * transaction began, so it is not the database's CURRENT_TIMESTAMP.
   */
  predicate ChoiceInRange(c: OrderChoice, userCount: nat, productCount: nat, endDate: Timestamp)
  {
    && c.userIndex < userCount
    && endDate - WindowSeconds <= c.orderDate <= endDate
    && c.status in StatusChoices
    && 1 <= |c.items| <= MaxItemsPerOrder
    && (forall ic :: ic in c.items ==> ic.productIndex < productCount && 1 <= ic.quantity <= MaxQuantity)
  }

  /** Every status the generator draws passes CHECK(order_status IN ...). */
  lemma StatusChoicesAccepted(s: string)
    requires s in StatusChoices
    ensures ParseStatus(s).Some? && StatusColumn(Some(s)) == Ok(ParseStatus(s))
    ensures StatusName(ParseStatus(s).value) == s
  {
  }

  /** product_prices[pid]: the price of the product with id pid. */
  function PriceOf(ps: seq<Product>, pid: int): Cents
    requires Lookup(ps, ProductKey, pid).Some?
  {
    Lookup(ps, ProductKey, pid).value.price
  }

  // ---------------------------------------------------------------------------
  // Items of one order
  // ---------------------------------------------------------------------------

  /** Appending an item adds it to its own order's items and to no other order's. */
  lemma ItemsOfAppend(items: seq<OrderItem>, it: OrderItem, oid: int)
    ensures ItemsOf(items + [it], oid) == ItemsOf(items, oid) + (if it.orderId == Some(oid) then [it] else [])
  {
    assert (items + [it])[..|items|] == items;
  }

  /** Items that do not belong to order oid leave its items unchanged. */
  lemma {:induction false} ItemsOfOthers(items: seq<OrderItem>, extra: seq<OrderItem>, oid: int)
    requires forall it :: it in extra ==> it.orderId != Some(oid)
    ensures ItemsOf(items + extra, oid) == ItemsOf(items, oid)
    decreases |extra|
  {
    if |extra| == 0 {
      assert items + extra == items;
    } else {
      var e := extra[..|extra| - 1];
      var x := extra[|extra| - 1];
      assert items + extra == (items + e) + [x];
      assert x in extra;
      ItemsOfOthers(items, e, oid);
      ItemsOfAppend(items + e, x, oid);
    }
  }

  /** Items that all belong to order oid are added to its items, in order. */
  lemma {:induction false} ItemsOfOwn(items: seq<OrderItem>, extra: seq<OrderItem>, oid: int)
    requires forall it :: it in extra ==> it.orderId == Some(oid)
    ensures ItemsOf(items + extra, oid) == ItemsOf(items, oid) + extra
    decreases |extra|
  {
    if |extra| == 0 {
      assert items + extra == items;
    } else {
      var e := extra[..|extra| - 1];
      var x := extra[|extra| - 1];
      assert items + extra == (items + e) + [x];
      assert x in extra;
      assert e + [x] == extra;
      ItemsOfOwn(items, e, oid);
      ItemsOfAppend(items + e, x, oid);
    }
  }

  /** An order id no item refers to has no items. */
  lemma {:induction false} ItemsOfFresh(items: seq<OrderItem>, oid: int)
    requires forall it :: it in items ==> it.orderId != Some(oid)
    ensures ItemsOf(items, oid) == []
    decreases |items|
  {
    if |items| > 0 {
      var p, x := items[..|items| - 1], items[|items| - 1];
      assert items == p + [x];
      ItemsOfFresh(p, oid);
      ItemsOfAppend(p, x, oid);
    }
  }

  /** In a well-formed database every item refers to an order below the next order id. */
  lemma ItemOrdersBelow(db: Db, nextOrder: int)
    requires WellFormed(db) && forall o :: o in db.orders ==> o.id < nextOrder
    ensures forall it :: it in db.items && it.orderId.Some? ==> it.orderId.value < nextOrder
  {
    forall it | it in db.items && it.orderId.Some? ensures it.orderId.value < nextOrder {
      assert HasOrder(db, it.orderId.value);
    }
  }

  /** The next SERIAL value of orders names no order yet, so no item belongs to it. */
  lemma FreshOrderHasNoItems(db: Db, nextOrder: int)
    requires WellFormed(db) && forall o :: o in db.orders ==> o.id < nextOrder
    ensures ItemsOf(db.items, nextOrder) == []
  {
    ItemOrdersBelow(db, nextOrder);
    ItemsOfFresh(db.items, nextOrder);
  }

  // ---------------------------------------------------------------------------
  // The pass
  // ---------------------------------------------------------------------------

  /**
   * Row i of executemany(INSERT INTO users ...), after rows 0 .. i-1 went in
   * with ids from first; only the UNIQUE e-mail can reject it.
   */
  method InsertSeedUser(store: Store, seeds: seq<UserSeed>, i: nat, now: Timestamp, ghost base: seq<User>, ghost first: int)
    returns (err: Option<DbError>)
    requires store.Valid() && i < |seeds|
    requires store.users == base + SeedUsers(seeds[..i], first, now) && store.nextUserId == first + i
    modifies store
    ensures store.Valid()
    ensures store.products == old(store.products) && store.orders == old(store.orders) && store.items == old(store.items)
    ensures store.committed == old(store.committed)
    ensures store.nextProductId == old(store.nextProductId) && store.nextOrderId == old(store.nextOrderId)
    ensures store.nextItemId == old(store.nextItemId)
    ensures err.Some? <==> !EmailFree(old(store.users), SeedUser(seeds[i], first + i, now).email, first + i)
    ensures err.Some? ==> err.value == UniqueViolation
    ensures err.None? ==>
      && store.users == base + SeedUsers(seeds[..i + 1], first, now)
      && store.nextUserId == first + i + 1
  {
    var u := SeedUser(seeds[i], store.nextUserId, now);
    var r := store.InsertUser(u.firstName, u.lastName, u.email, u.country, u.city, now);
    err := if r.Err? then Some(r.error) else None;
    SeedUsersStep(base, seeds, i, first, now);
  }

  /** Row i of executemany(INSERT INTO products ...); a seeded row always fits. */
  method InsertSeedProduct(store: Store, seeds: seq<ProductSeed>, i: nat, now: Timestamp, ghost base: seq<Product>, ghost first: int)
    requires store.Valid() && i < |seeds| && seeds[i].category in Categories
    requires store.products == base + SeedProducts(seeds[..i], first, now) && store.nextProductId == first + i
    modifies store
    ensures store.Valid()
    ensures store.users == old(store.users) && store.orders == old(store.orders) && store.items == old(store.items)
    ensures store.committed == old(store.committed)
    ensures store.nextUserId == old(store.nextUserId) && store.nextOrderId == old(store.nextOrderId)
    ensures store.nextItemId == old(store.nextItemId)
    ensures store.products == base + SeedProducts(seeds[..i + 1], first, now)
    ensures store.nextProductId == first + i + 1
  {
    var p := SeedProduct(seeds[i], store.nextProductId, now);
    var r := store.InsertProduct(p.title, p.price, p.category, now);
    assert r.Ok?;
    SeedProductsStep(base, seeds, i, first, now);
  }

  /** executemany(INSERT INTO users ...): stops at the first rejected row. */
  method InsertUsers(store: Store, seeds: seq<UserSeed>, now: Timestamp) returns (err: Option<DbError>)
    requires store.Valid()
    modifies store
    ensures store.Valid()
    ensures store.products == old(store.products) && store.orders == old(store.orders) && store.items == old(store.items)
    ensures store.committed == old(store.committed)
    ensures store.nextProductId == old(store.nextProductId) && store.nextOrderId == old(store.nextOrderId)
    ensures store.nextItemId == old(store.nextItemId)
    ensures err.Some? ==> err.value == UniqueViolation
    ensures err.None? ==>
      && store.users == old(store.users) + SeedUsers(seeds, old(store.nextUserId), now)
      && store.nextUserId == old(store.nextUserId) + |seeds|
  {
    ghost var base, first := store.users, store.nextUserId;
    var i := 0;
    while i < |seeds|
      invariant 0 <= i <= |seeds|
      invariant store.Valid()
      invariant store.products == old(store.products) && store.orders == old(store.orders) && store.items == old(store.items)
      invariant store.committed == old(store.committed)
      invariant store.nextProductId == old(store.nextProductId) && store.nextOrderId == old(store.nextOrderId)
      invariant store.nextItemId == old(store.nextItemId)
      invariant store.users == base + SeedUsers(seeds[..i], first, now)
      invariant store.nextUserId == first + i
    {
      err := InsertSeedUser(store, seeds, i, now, base, first);
      if err.Some? {
        return;
      }
      i := i + 1;
    }
    assert seeds[..i] == seeds;
    err := None;
  }

  /** executemany(INSERT INTO products ...): every row fits, so none is rejected. */
  method InsertProducts(store: Store, seeds: seq<ProductSeed>, now: Timestamp)
    requires store.Valid()
    requires forall s :: s in seeds ==> s.category in Categories
    modifies store
    ensures store.Valid()
    ensures store.users == old(store.users) && store.orders == old(store.orders) && store.items == old(store.items)
    ensures store.committed == old(store.committed)
    ensures store.nextUserId == old(store.nextUserId) && store.nextOrderId == old(store.nextOrderId)
    ensures store.nextItemId == old(store.nextItemId)
    ensures store.products == old(store.products) + SeedProducts(seeds, old(store.nextProductId), now)
    ensures store.nextProductId == old(store.nextProductId) + |seeds|
  {
    ghost var base, first := store.products, store.nextProductId;
    var i := 0;
    while i < |seeds|
      invariant 0 <= i <= |seeds|
      invariant store.Valid()
      invariant store.users == old(store.users) && store.orders == old(store.orders) && store.items == old(store.items)
      invariant store.committed == old(store.committed)
      invariant store.nextUserId == old(store.nextUserId) && store.nextOrderId == old(store.nextOrderId)
      invariant store.nextItemId == old(store.nextItemId)
      invariant store.products == base + SeedProducts(seeds[..i], first, now)
      invariant store.nextProductId == first + i
    {
      assert seeds[i] in seeds;
      InsertSeedProduct(store, seeds, i, now, base, first);
      i := i + 1;
    }
    assert seeds[..i] == seeds;
  }

  /** One item the generator writes for order oid: its product's current price, quantity 1 to 3. */
  ghost predicate SeededItem(it: OrderItem, oid: int, products: seq<Product>)
  {
    && it.orderId == Some(oid)
    && it.productId.Some? && HasProduct(Db([], products, [], []), it.productId.value)
    && it.unitPrice == PriceOf(products, it.productId.value)
    && 1 <= it.quantity <= MaxQuantity
  }

  /** One INSERT INTO order_items at the product's current price; returns quantity * unit_price. */
  method InsertSeededItem(store: Store, orderId: int, pid: int, quantity: int, now: Timestamp)
    returns (subtotal: Cents)
    requires store.Valid()
    requires HasOrder(store.Current(), orderId) && HasProduct(store.Current(), pid)
    requires 1 <= quantity <= MaxQuantity
    modifies store
    ensures store.Valid()
    ensures store.users == old(store.users) && store.products == old(store.products)
    ensures store.orders == old(store.orders) && store.committed == old(store.committed)
    ensures store.nextUserId == old(store.nextUserId) && store.nextProductId == old(store.nextProductId)
    ensures store.nextOrderId == old(store.nextOrderId) && store.nextItemId == old(store.nextItemId) + 1
    ensures |store.items| == |old(store.items)| + 1 && store.items[..|old(store.items)|] == old(store.items)
    ensures AllSeeded(store.items[|old(store.items)|..], orderId, store.products)
    ensures store.items[|old(store.items)|] == OrderItem(old(store.nextItemId), Some(orderId), Some(pid), quantity,
      PriceOf(store.products, pid), quantity * PriceOf(store.products, pid), now, now)
    ensures subtotal == quantity * PriceOf(store.products, pid)
    ensures Sum(ItemsOf(store.items, orderId), ItemSubtotal) == Sum(ItemsOf(old(store.items), orderId), ItemSubtotal) + subtotal
  {
    var unitPrice := PriceOf(store.products, pid);
    ghost var before := store.items;
    var ri := store.InsertOrderItem(Some(orderId), Some(pid), quantity, unitPrice, now);
    assert ri.Ok?;
    AppendSeededItem(before, store.items, OrderItem(ri.value, Some(orderId), Some(pid), quantity, unitPrice, quantity * unitPrice, now, now), orderId, store.products);
    subtotal := quantity * unitPrice;
  }

  /** Every item of s is one the generator wrote for order oid. */
  ghost predicate AllSeeded(s: seq<OrderItem>, oid: int, products: seq<Product>)
  {
    forall it :: it in s ==> SeededItem(it, oid, products)
  }

  /** Appending one seeded item: the old rows stay, and the order's subtotal sum grows by the item's. */
  lemma AppendSeededItem(before: seq<OrderItem>, after: seq<OrderItem>, it: OrderItem, oid: int, products: seq<Product>)
    requires after == before + [it] && SeededItem(it, oid, products)
    ensures |after| == |before| + 1 && after[..|before|] == before
    ensures AllSeeded(after[|before|..], oid, products)
    ensures Sum(ItemsOf(after, oid), ItemSubtotal) == Sum(ItemsOf(before, oid), ItemSubtotal) + it.subtotal
  {
    assert after[|before|..] == [it];
    ItemsOfAppend(before, it, oid);
    SumAppend(ItemsOf(before, oid), it, ItemSubtotal);
  }

  /** Seeded rows appended after a prefix stay seeded when more are appended. */
  lemma AllSeededExtend(base: seq<OrderItem>, mid: seq<OrderItem>, after: seq<OrderItem>, oid: int, products: seq<Product>)
    requires |base| <= |mid| <= |after|
    requires mid[..|base|] == base && after[..|mid|] == mid
    requires AllSeeded(mid[|base|..], oid, products) && AllSeeded(after[|mid|..], oid, products)
    ensures after[..|base|] == base
    ensures AllSeeded(after[|base|..], oid, products)
  {
    assert after[|base|..] == mid[|base|..] + after[|mid|..];
  }

  /** The order_items row the generator writes for item choice ic of order oid, under item id. */
  function SeededItemRow(ic: ItemChoice, productIds: seq<int>, oid: int, id: int, products: seq<Product>, now: Timestamp): OrderItem
    requires ic.productIndex < |productIds|
    requires Lookup(products, ProductKey, productIds[ic.productIndex]).Some?
  {
    var pid := productIds[ic.productIndex];
    OrderItem(id, Some(oid), Some(pid), ic.quantity, PriceOf(products, pid), ic.quantity * PriceOf(products, pid), now, now)
  }

  /** Rows start .. start+n-1 of items are the rows written for the first n item choices. */
  ghost predicate RowsFollowChoices(items: seq<OrderItem>, start: nat, choices: seq<ItemChoice>, n: nat,
                                    productIds: seq<int>, oid: int, firstItem: int, products: seq<Product>, now: Timestamp)
  {
    && n <= |choices| && start + n <= |items|
    && (forall ic :: ic in choices ==> ic.productIndex < |productIds|)
    && (forall pid :: pid in productIds ==> Lookup(products, ProductKey, pid).Some?)
    && forall j :: 0 <= j < n ==> items[start + j] == SeededItemRow(choices[j], productIds, oid, firstItem + j, products, now)
  }

  /** Appending the row for choice n extends the rows that follow the choices. */
  lemma RowsFollowChoicesStep(before: seq<OrderItem>, after: seq<OrderItem>, start: nat, choices: seq<ItemChoice>, n: nat,
                              productIds: seq<int>, oid: int, firstItem: int, products: seq<Product>, now: Timestamp)
    requires RowsFollowChoices(before, start, choices, n, productIds, oid, firstItem, products, now)
    requires start + n == |before| && n < |choices|
    requires |after| == |before| + 1 && after[..|before|] == before
    requires after[|before|] == SeededItemRow(choices[n], productIds, oid, firstItem + n, products, now)
    ensures RowsFollowChoices(after, start, choices, n + 1, productIds, oid, firstItem, products, now)
  {
    forall j | 0 <= j < n + 1
      ensures after[start + j] == SeededItemRow(choices[j], productIds, oid, firstItem + j, products, now)
    {
      if j < n {
        assert after[start + j] == after[..|before|][start + j];
      }
    }
  }

  /**
   * What the item loop has done after k choices: the old rows are kept, the
   * new rows are seeded items of order oid that follow the choices, and
   * total is what they add to the order's subtotal sum.
   */
  ghost predicate ItemsLoopInv(items0: seq<OrderItem>, items: seq<OrderItem>, choices: seq<ItemChoice>, k: nat,
                               productIds: seq<int>, oid: int, firstItem: int, products: seq<Product>, now: Timestamp, total: int)
  {
    && |items| == |items0| + k && items[..|items0|] == items0
    && AllSeeded(items[|items0|..], oid, products)
    && RowsFollowChoices(items, |items0|, choices, k, productIds, oid, firstItem, products, now)
    && Sum(ItemsOf(items, oid), ItemSubtotal) == Sum(ItemsOf(items0, oid), ItemSubtotal) + total
  }

  /** Appending the row for choice k, seeded for order oid, keeps the item loop's invariant. */
  lemma ItemsLoopStep(items0: seq<OrderItem>, before: seq<OrderItem>, after: seq<OrderItem>, choices: seq<ItemChoice>, k: nat,
                      productIds: seq<int>, oid: int, firstItem: int, products: seq<Product>, now: Timestamp,
                      total: int, subtotal: int)
    requires ItemsLoopInv(items0, before, choices, k, productIds, oid, firstItem, products, now, total)
    requires k < |choices|
    requires |after| == |before| + 1 && after[..|before|] == before
    requires AllSeeded(after[|before|..], oid, products)
    requires after[|before|] == SeededItemRow(choices[k], productIds, oid, firstItem + k, products, now)
    requires Sum(ItemsOf(after, oid), ItemSubtotal) == Sum(ItemsOf(before, oid), ItemSubtotal) + subtotal
    ensures ItemsLoopInv(items0, after, choices, k + 1, productIds, oid, firstItem, products, now, total + subtotal)
  {
    AllSeededExtend(items0, before, after, oid, products);
    RowsFollowChoicesStep(before, after, |items0|, choices, k, productIds, oid, firstItem, products, now);
  }

  /** One round of the item loop: INSERT the row for choice k, keeping the loop's invariant. */
  method InsertChoiceItem(store: Store, orderId: int, choices: seq<ItemChoice>, k: nat, productIds: seq<int>, now: Timestamp,
                          ghost items0: seq<OrderItem>, ghost firstItem: int, ghost total: int)
    returns (subtotal: Cents)
    requires store.Valid()
    requires HasOrder(store.Current(), orderId)
    requires k < |choices| && choices[k].productIndex < |productIds| && 1 <= choices[k].quantity <= MaxQuantity
    requires forall pid :: pid in productIds ==> HasProduct(store.Current(), pid)
    requires store.nextItemId == firstItem + k
    requires ItemsLoopInv(items0, store.items, choices, k, productIds, orderId, firstItem, store.products, now, total)
    modifies store
    ensures store.Valid()
    ensures store.users == old(store.users) && store.products == old(store.products)
    ensures store.orders == old(store.orders) && store.committed == old(store.committed)
    ensures store.nextUserId == old(store.nextUserId) && store.nextProductId == old(store.nextProductId)
    ensures store.nextOrderId == old(store.nextOrderId) && store.nextItemId == old(store.nextItemId) + 1
    ensures ItemsLoopInv(items0, store.items, choices, k + 1, productIds, orderId, firstItem, store.products, now, total + subtotal)
  {
    var ic := choices[k];
    var pid := productIds[ic.productIndex];
    assert pid in productIds;
    ghost var before := store.items;
    subtotal := InsertSeededItem(store, orderId, pid, ic.quantity, now);
    ItemsLoopStep(items0, before, store.items, choices, k, productIds, orderId, firstItem, store.products, now, total, subtotal);
  }

  /**
   * The inner loop of one order: INSERT one item per choice, at its
   * product's current price, adding quantity * unit_price to order_total.
   * The accumulated total is what the new items add to the order's items.
   */
  method InsertItems(store: Store, orderId: int, choices: seq<ItemChoice>, productIds: seq<int>, now: Timestamp)
    returns (orderTotal: Cents)
    requires store.Valid()
    requires HasOrder(store.Current(), orderId)
    requires forall ic :: ic in choices ==> ic.productIndex < |productIds| && 1 <= ic.quantity <= MaxQuantity
    requires forall pid :: pid in productIds ==> HasProduct(store.Current(), pid)
    modifies store
    ensures store.Valid()
    ensures store.users == old(store.users) && store.products == old(store.products)
    ensures store.orders == old(store.orders) && store.committed == old(store.committed)
    ensures store.nextUserId == old(store.nextUserId) && store.nextProductId == old(store.nextProductId)
    ensures store.nextOrderId == old(store.nextOrderId) && store.nextItemId == old(store.nextItemId) + |choices|
    ensures |store.items| == |old(store.items)| + |choices|
    ensures store.items[..|old(store.items)|] == old(store.items)
    ensures AllSeeded(store.items[|old(store.items)|..], orderId, store.products)
    ensures RowsFollowChoices(store.items, |old(store.items)|, choices, |choices|, productIds, orderId, old(store.nextItemId), store.products, now)
    ensures Sum(ItemsOf(store.items, orderId), ItemSubtotal) == Sum(ItemsOf(old(store.items), orderId), ItemSubtotal) + orderTotal
  {
    ghost var items0, firstItem := store.items, store.nextItemId;
    orderTotal := 0;
    var k := 0;
    assert forall ic :: ic in choices ==> ic.productIndex < |productIds|;
    assert store.items[|items0|..] == [];
    while k < |choices|
      invariant 0 <= k <= |choices|
      invariant store.Valid()
      invariant store.users == old(store.users) && store.products == old(store.products)
      invariant store.orders == old(store.orders) && store.committed == old(store.committed)
      invariant store.nextUserId == old(store.nextUserId) && store.nextProductId == old(store.nextProductId)
      invariant store.nextOrderId == old(store.nextOrderId) && store.nextItemId == old(store.nextItemId) + k
      invariant ItemsLoopInv(items0, store.items, choices, k, productIds, orderId, firstItem, store.products, now, orderTotal)
    {
      var subtotal := InsertChoiceItem(store, orderId, choices, k, productIds, now, items0, firstItem, orderTotal);
      orderTotal := orderTotal + subtotal;
      k := k + 1;
    }
  }

  /** INSERT INTO orders with total_amount 0: the new order has no items yet. */
  method InsertEmptyOrder(store: Store, uid: int, orderDate: Timestamp, status: string, now: Timestamp)
    returns (orderId: int)
    requires store.Valid()
    requires HasUser(store.Current(), uid) && status in StatusChoices
    modifies store
    ensures store.Valid()
    ensures store.users == old(store.users) && store.products == old(store.products)
    ensures store.items == old(store.items) && store.committed == old(store.committed)
    ensures orderId == old(store.nextOrderId) && store.nextOrderId == orderId + 1
    ensures store.nextUserId == old(store.nextUserId) && store.nextProductId == old(store.nextProductId)
    ensures store.nextItemId == old(store.nextItemId)
    ensures store.orders == old(store.orders) + [Order(orderId, Some(uid), orderDate, 0, ParseStatus(status), now, now)]
    ensures HasOrder(store.Current(), orderId)
    ensures ItemsOf(store.items, orderId) == []
  {
    StatusChoicesAccepted(status);
    FreshOrderHasNoItems(store.Current(), store.nextOrderId);
    var ro := store.InsertOrder(Some(uid), Some(orderDate), 0, Some(status), now);
    assert ro.Ok?;
    orderId := ro.value;
    LookupSomeAppend(old(store.orders), OrderKey, Order(orderId, Some(uid), orderDate, 0, ParseStatus(status), now, now), orderId);
  }

  /**
   * UPDATE orders SET total_amount = ... WHERE id = the order just inserted,
   * the last row: only total_amount changes, and the trigger sets updated_at.
   */
  method SetOrderTotal(store: Store, orderId: int, total: Cents, now: Timestamp)
    requires store.Valid()
    requires |store.orders| > 0 && store.orders[|store.orders| - 1].id == orderId
    modifies store
    ensures store.Valid()
    ensures store.users == old(store.users) && store.products == old(store.products)
    ensures store.items == old(store.items) && store.committed == old(store.committed)
    ensures store.nextUserId == old(store.nextUserId) && store.nextProductId == old(store.nextProductId)
    ensures store.nextOrderId == old(store.nextOrderId) && store.nextItemId == old(store.nextItemId)
    ensures store.orders == old(store.orders)[|old(store.orders)| - 1 :=
      old(store.orders)[|old(store.orders)| - 1].(totalAmount := total, updatedAt := now)]
  {
    var o := store.orders[|store.orders| - 1];
    assert o in store.orders;
    var statusText := if o.status.Some? then Some(StatusName(o.status.value)) else None;
    if o.status.Some? {
      ParseStatusName(o.status.value);
    }
    assert IndexOf(store.orders, OrderKey, orderId) == Some(|store.orders| - 1);
    var ru := store.UpdateOrder(orderId, o.userId, o.orderDate, total, statusText, now);
    assert ru == Ok(true);
  }

  /**
   * One iteration of the order loop: INSERT the order with total_amount 0,
   * INSERT its items, then UPDATE the order's total_amount to the
   * accumulated sum. No statement here can be rejected: the status is one
   * CHECK admits and every reference exists.
   */
  method SeedOrder(store: Store, c: OrderChoice, userIds: seq<int>, productIds: seq<int>, ghost endDate: Timestamp, now: Timestamp)
    returns (orderId: int)
    requires store.Valid()
    requires ChoiceInRange(c, |userIds|, |productIds|, endDate)
    requires HasUser(store.Current(), userIds[c.userIndex])
    requires forall pid :: pid in productIds ==> HasProduct(store.Current(), pid)
    modifies store
    ensures store.Valid()
    ensures store.users == old(store.users) && store.products == old(store.products)
    ensures store.committed == old(store.committed)
    ensures orderId == old(store.nextOrderId) && store.nextOrderId == orderId + 1
    ensures store.nextUserId == old(store.nextUserId) && store.nextProductId == old(store.nextProductId)
    ensures store.nextItemId == old(store.nextItemId) + |c.items|
    ensures store.orders == old(store.orders) + [Order(orderId, Some(userIds[c.userIndex]), c.orderDate,
      Sum(ItemsOf(store.items, orderId), ItemSubtotal), ParseStatus(c.status), now, now)]
    ensures |store.items| == |old(store.items)| + |c.items|
    ensures store.items[..|old(store.items)|] == old(store.items)
    ensures AllSeeded(store.items[|old(store.items)|..], orderId, store.products)
    ensures RowsFollowChoices(store.items, |old(store.items)|, c.items, |c.items|, productIds, orderId, old(store.nextItemId), store.products, now)
  {
    var uid := userIds[c.userIndex];
    orderId := InsertEmptyOrder(store, uid, c.orderDate, c.status, now);
    ghost var o := Order(orderId, Some(uid), c.orderDate, 0, ParseStatus(c.status), now, now);
    ghost var orders1 := store.orders;
    assert orders1 == old(store.orders) + [o];
    ghost var items0, firstItem := store.items, store.nextItemId;
    assert items0 == old(store.items) && firstItem == old(store.nextItemId);
    var orderTotal := InsertItems(store, orderId, c.items, productIds, now);
    ghost var items1 := store.items;
    assert orderTotal == Sum(ItemsOf(items1, orderId), ItemSubtotal);
    assert RowsFollowChoices(items1, |items0|, c.items, |c.items|, productIds, orderId, firstItem, store.products, now);
    assert store.orders == orders1 && orders1[|orders1| - 1] == o;
    SetOrderTotal(store, orderId, orderTotal, now);
    assert store.orders == orders1[|orders1| - 1 := o.(totalAmount := orderTotal, updatedAt := now)];
    ReplaceLast(old(store.orders), o, o.(totalAmount := orderTotal, updatedAt := now));
    assert store.items == items1;
  }

  // ---------------------------------------------------------------------------
  // What the order loop keeps
  // ---------------------------------------------------------------------------

  /** Items written by the loop for orders lo .. hi-1. */
  ghost predicate SeededBetween(s: seq<OrderItem>, lo: int, hi: int, products: seq<Product>)
  {
    forall it :: it in s ==> it.orderId.Some? && lo <= it.orderId.value < hi && SeededItem(it, it.orderId.value, products)
  }

  /** The order row written for choice c under id. */
  predicate OrderFor(o: Order, c: OrderChoice, id: int, userIds: seq<int>, now: Timestamp)
    requires c.userIndex < |userIds|
  {
    && o.id == id && o.userId == Some(userIds[c.userIndex]) && o.orderDate == c.orderDate
    && o.status == ParseStatus(c.status) && o.createdAt == now && o.updatedAt == now
  }

  /** The orders the loop wrote for choices, with consecutive ids from first. */
  predicate OrdersFor(news: seq<Order>, choices: seq<OrderChoice>, first: int, userIds: seq<int>, now: Timestamp)
  {
    && |news| == |choices|
    && forall j :: 0 <= j < |news| ==>
         choices[j].userIndex < |userIds| && OrderFor(news[j], choices[j], first + j, userIds, now)
  }

  /**
   * Every order the loop wrote has the items of its choice, as many as the
   * choice lists, and its total_amount is the sum of their subtotals.
   */
  ghost predicate OrdersFilled(news: seq<Order>, done: seq<OrderChoice>, items: seq<OrderItem>)
  {
    && |news| == |done|
    && forall j :: 0 <= j < |news| ==>
         && news[j].totalAmount == Sum(ItemsOf(items, news[j].id), ItemSubtotal)
         && |ItemsOf(items, news[j].id)| == |done[j].items|
  }

  /** One more order with its own items: the earlier orders keep their items, and the new one is filled. */
  lemma OrdersFilledAppend(news: seq<Order>, done: seq<OrderChoice>, items: seq<OrderItem>,
                           o: Order, c: OrderChoice, e: seq<OrderItem>)
    requires OrdersFilled(news, done, items)
    requires forall x :: x in news ==> x.id != o.id
    requires forall it :: it in e ==> it.orderId == Some(o.id)
    requires o.totalAmount == Sum(ItemsOf(items + e, o.id), ItemSubtotal)
    requires |ItemsOf(items + e, o.id)| == |c.items|
    ensures OrdersFilled(news + [o], done + [c], items + e)
  {
    forall j | 0 <= j < |news|
      ensures ItemsOf(items + e, news[j].id) == ItemsOf(items, news[j].id)
    {
      assert news[j] in news;
      ItemsOfOthers(items, e, news[j].id);
    }
  }

  /** One more order written for the next choice. */
  lemma OrdersForAppend(news: seq<Order>, o: Order, done: seq<OrderChoice>, c: OrderChoice,
                        first: int, userIds: seq<int>, now: Timestamp)
    requires OrdersFor(news, done, first, userIds, now)
    requires c.userIndex < |userIds| && OrderFor(o, c, first + |done|, userIds, now)
    ensures OrdersFor(news + [o], done + [c], first, userIds, now)
  {
  }

  /** Adding an order together with its items keeps every total equal to the sum of its items. */
  lemma TotalsAfterOrder(db: Db, o: Order, e: seq<OrderItem>)
    requires TotalsConsistent(db)
    requires forall x :: x in db.orders ==> x.id < o.id
    requires forall it :: it in e ==> it.orderId == Some(o.id)
    requires o.totalAmount == Sum(ItemsOf(db.items + e, o.id), ItemSubtotal)
    ensures TotalsConsistent(db.(orders := db.orders + [o], items := db.items + e))
  {
    forall x | x in db.orders + [o] ensures x.totalAmount == Sum(ItemsOf(db.items + e, x.id), ItemSubtotal) {
      if x in db.orders {
        ItemsOfOthers(db.items, e, x.id);
      }
    }
  }

  /** New items all name a product, and no old item belongs to the new order. */
  lemma ProductsAfterOrder(db: Db, o: Order, e: seq<OrderItem>)
    requires CompletedItemsHaveProducts(db)
    requires forall it :: it in db.items && it.orderId.Some? ==> it.orderId.value < o.id
    requires forall it :: it in e ==> it.productId.Some?
    ensures CompletedItemsHaveProducts(db.(orders := db.orders + [o], items := db.items + e))
  {
    var db' := db.(orders := db.orders + [o], items := db.items + e);
    forall it, x | it in db'.items && x in db'.orders && IsCompleted(x) && it.orderId == Some(x.id)
      ensures it.productId.Some?
    {
      if it !in e && x !in db.orders {
        assert it in db.items && x == o;
      }
    }
  }

  /** Extending the loop's items by one order's seeded items. */
  lemma SeededBetweenExtend(base: seq<OrderItem>, mid: seq<OrderItem>, after: seq<OrderItem>,
                            lo: int, oid: int, products: seq<Product>)
    requires |base| <= |mid| <= |after|
    requires mid[..|base|] == base && after[..|mid|] == mid
    requires SeededBetween(mid[|base|..], lo, oid, products) && AllSeeded(after[|mid|..], oid, products)
    requires lo <= oid
    ensures after[..|base|] == base
    ensures SeededBetween(after[|base|..], lo, oid + 1, products)
  {
    assert after[|base|..] == mid[|base|..] + after[|mid|..];
  }

  /**
   * What the order loop has done after the choices in done: the old rows
   * are kept, the new orders follow the choices with consecutive ids from
   * first, the new items belong to them, and the two agreement invariants
   * still hold if they held before the loop.
   */
  ghost predicate OrdersLoopInv(db0: Db, cur: Db, first: int, next: int, done: seq<OrderChoice>,
                                userIds: seq<int>, now: Timestamp)
  {
    && next == first + |done|
    && |db0.orders| <= |cur.orders| && cur.orders[..|db0.orders|] == db0.orders
    && OrdersFor(cur.orders[|db0.orders|..], done, first, userIds, now)
    && |db0.items| <= |cur.items| && cur.items[..|db0.items|] == db0.items
    && SeededBetween(cur.items[|db0.items|..], first, next, cur.products)
    && OrdersFilled(cur.orders[|db0.orders|..], done, cur.items)
    && (TotalsConsistent(db0) ==> TotalsConsistent(cur))
    && (CompletedItemsHaveProducts(db0) ==> CompletedItemsHaveProducts(cur))
  }

  /** Before the first order the loop has done nothing. */
  lemma OrdersLoopStart(db0: Db, first: int, userIds: seq<int>, now: Timestamp)
    ensures OrdersLoopInv(db0, db0, first, first, [], userIds, now)
  {
    assert db0.orders[|db0.orders|..] == [];
    assert db0.items[|db0.items|..] == [];
  }

  /** One pass of the order loop: order o with items e, written for choice c, keeps the invariant. */
  lemma OrdersLoopStep(db0: Db, prev: Db, next: Db, o: Order, e: seq<OrderItem>, first: int, oid: int,
                       done: seq<OrderChoice>, c: OrderChoice, userIds: seq<int>, now: Timestamp)
    requires OrdersLoopInv(db0, prev, first, oid, done, userIds, now)
    requires WellFormed(prev) && first <= oid
    requires forall x :: x in prev.orders ==> x.id < oid
    requires next == prev.(orders := prev.orders + [o], items := prev.items + e)
    requires c.userIndex < |userIds| && OrderFor(o, c, oid, userIds, now)
    requires o.totalAmount == Sum(ItemsOf(next.items, oid), ItemSubtotal)
    requires |ItemsOf(next.items, oid)| == |c.items|
    requires AllSeeded(e, oid, next.products)
    ensures OrdersLoopInv(db0, next, first, oid + 1, done + [c], userIds, now)
  {
    var news := prev.orders[|db0.orders|..];
    assert forall x :: x in news ==> x in prev.orders;
    OrdersFilledAppend(news, done, prev.items, o, c, e);
    ItemOrdersBelow(prev, oid);
    if TotalsConsistent(db0) {
      TotalsAfterOrder(prev, o, e);
    }
    if CompletedItemsHaveProducts(db0) {
      ProductsAfterOrder(prev, o, e);
    }
    SeededBetweenExtend(db0.items, prev.items, next.items, first, oid, next.products);
    AppendKeepsPrefix(db0.orders, prev.orders, next.orders, o);
    OrdersForAppend(prev.orders[|db0.orders|..], o, done, c, first, userIds, now);
  }

  /** SeedOrder, seen from the loop: it keeps the loop invariant with one more choice done. */
  method SeedOrderStep(store: Store, c: OrderChoice, userIds: seq<int>, productIds: seq<int>, ghost endDate: Timestamp, now: Timestamp,
                       ghost db0: Db, ghost first: int, ghost done: seq<OrderChoice>)
    requires store.Valid()
    requires ChoiceInRange(c, |userIds|, |productIds|, endDate)
    requires forall uid :: uid in userIds ==> HasUser(store.Current(), uid)
    requires forall pid :: pid in productIds ==> HasProduct(store.Current(), pid)
    requires OrdersLoopInv(db0, store.Current(), first, store.nextOrderId, done, userIds, now)
    modifies store
    ensures store.Valid()
    ensures store.users == old(store.users) && store.products == old(store.products)
    ensures store.committed == old(store.committed)
    ensures store.nextUserId == old(store.nextUserId) && store.nextProductId == old(store.nextProductId)
    ensures store.nextOrderId == old(store.nextOrderId) + 1
    ensures OrdersLoopInv(db0, store.Current(), first, store.nextOrderId, done + [c], userIds, now)
  {
    ghost var prev := store.Current();
    assert forall x :: x in prev.orders ==> x.id < store.nextOrderId;
    var oid := SeedOrder(store, c, userIds, productIds, endDate, now);
    ghost var o := Order(oid, Some(userIds[c.userIndex]), c.orderDate,
      Sum(ItemsOf(store.items, oid), ItemSubtotal), ParseStatus(c.status), now, now);
    SplitAt(store.items, |prev.items|);
    ghost var e := store.items[|prev.items|..];
    ItemOrdersBelow(prev, oid);
    ItemsOfFresh(prev.items, oid);
    ItemsOfOwn(prev.items, e, oid);
    OrdersLoopStep(db0, prev, store.Current(), o, store.items[|prev.items|..], first, oid, done, c, userIds, now);
  }

  /**
   * for order_counter in range(1, 201): one order per choice. The new orders
   * take consecutive ids in choice order; every order's total stays the sum
   * of its items' subtotals and every completed order's items keep a product.
   */
  method SeedOrders(store: Store, choices: seq<OrderChoice>, userIds: seq<int>, productIds: seq<int>,
                    ghost endDate: Timestamp, now: Timestamp)
    requires store.Valid()
    requires forall c :: c in choices ==> ChoiceInRange(c, |userIds|, |productIds|, endDate)
    requires forall uid :: uid in userIds ==> HasUser(store.Current(), uid)
    requires forall pid :: pid in productIds ==> HasProduct(store.Current(), pid)
    modifies store
    ensures store.Valid()
    ensures store.users == old(store.users) && store.products == old(store.products)
    ensures store.committed == old(store.committed)
    ensures store.nextUserId == old(store.nextUserId) && store.nextProductId == old(store.nextProductId)
    ensures store.nextOrderId == old(store.nextOrderId) + |choices|
    ensures OrdersLoopInv(old(store.Current()), store.Current(), old(store.nextOrderId), store.nextOrderId, choices, userIds, now)
  {
    ghost var db0 := store.Current();
    OrdersLoopStart(db0, store.nextOrderId, userIds, now);
    var k := 0;
    while k < |choices|
      invariant 0 <= k <= |choices|
      invariant store.Valid()
      invariant store.users == db0.users && store.products == db0.products
      invariant store.committed == old(store.committed)
      invariant store.nextUserId == old(store.nextUserId) && store.nextProductId == old(store.nextProductId)
      invariant store.nextOrderId == old(store.nextOrderId) + k
      invariant forall uid :: uid in userIds ==> HasUser(store.Current(), uid)
      invariant forall pid :: pid in productIds ==> HasProduct(store.Current(), pid)
      invariant OrdersLoopInv(db0, store.Current(), old(store.nextOrderId), store.nextOrderId, choices[..k], userIds, now)
    {
      assert choices[k] in choices;
      SeedOrderStep(store, choices[k], userIds, productIds, endDate, now, db0, old(store.nextOrderId), choices[..k]);
      PrefixStep(choices, k);
      k := k + 1;
    }
    assert choices[..k] == choices;
  }

  // ---------------------------------------------------------------------------
  // The orphan counts and the integrity report
  // ---------------------------------------------------------------------------

  /**
   * NOT EXISTS (SELECT 1 FROM users u WHERE u.id = o.user_id): a NULL
   * user_id matches no row, so it counts as well as a dangling one.
   */
  predicate OrphanOrder(db: Db, o: Order)
  {
    o.userId.None? || !HasUser(db, o.userId.value)
  }

  /** An item with no matching order or no matching product; NULL matches nothing. */
  predicate OrphanItem(db: Db, it: OrderItem)
  {
    || it.orderId.None? || !HasOrder(db, it.orderId.value)
    || it.productId.None? || !HasProduct(db, it.productId.value)
  }

  /** The orphaned-orders count: at most the order count, and zero exactly when no order is orphaned. */
  function OrphanedOrders(db: Db): (n: nat)
    ensures n <= |db.orders|
    ensures n == 0 <==> forall o :: o in db.orders ==> !OrphanOrder(db, o)
  {
    Count(db.orders, o => OrphanOrder(db, o))
  }

  /** The orphaned-items count: at most the item count, and zero exactly when no item is orphaned. */
  function OrphanedItems(db: Db): (n: nat)
    ensures n <= |db.items|
    ensures n == 0 <==> forall it :: it in db.items ==> !OrphanItem(db, it)
  {
    Count(db.items, it => OrphanItem(db, it))
  }

  predicate NullUser(o: Order) { o.userId.None? }

  predicate NullReference(it: OrderItem) { it.orderId.None? || it.productId.None? }

  /** Under the foreign keys a row is orphaned exactly when one of its references is NULL. */
  lemma OrphansAreNulls(db: Db)
    requires WellFormed(db)
    ensures OrphanedOrders(db) == Count(db.orders, NullUser)
    ensures OrphanedItems(db) == Count(db.items, NullReference)
  {
    CountCongruent(db.orders, o => OrphanOrder(db, o), NullUser);
    CountCongruent(db.items, it => OrphanItem(db, it), NullReference);
  }

  /** Orders written for choices all name a user. */
  lemma NewOrdersHaveUsers(no: seq<Order>, done: seq<OrderChoice>, first: int, userIds: seq<int>, now: Timestamp)
    requires OrdersFor(no, done, first, userIds, now)
    ensures Count(no, NullUser) == 0
  {
    forall o | o in no ensures !NullUser(o) {
      var j :| 0 <= j < |no| && no[j] == o;
      assert OrderFor(no[j], done[j], first + j, userIds, now);
    }
  }

  /** Items the loop wrote all name an order and a product. */
  lemma NewItemsHaveReferences(ni: seq<OrderItem>, lo: int, hi: int, products: seq<Product>)
    requires SeededBetween(ni, lo, hi, products)
    ensures Count(ni, NullReference) == 0
  {
  }

  /** Adding rows that have no NULL reference keeps the orphan counts of a consistent database. */
  lemma NoOrphansAdded(before: Db, cur: Db)
    requires WellFormed(before) && WellFormed(cur)
    requires |before.orders| <= |cur.orders| && cur.orders[..|before.orders|] == before.orders
    requires |before.items| <= |cur.items| && cur.items[..|before.items|] == before.items
    requires Count(cur.orders[|before.orders|..], NullUser) == 0
    requires Count(cur.items[|before.items|..], NullReference) == 0
    ensures OrphanedOrders(cur) == OrphanedOrders(before)
    ensures OrphanedItems(cur) == OrphanedItems(before)
  {
    OrphansAreNulls(before);
    OrphansAreNulls(cur);
    SplitAt(cur.orders, |before.orders|);
    SplitAt(cur.items, |before.items|);
    CountConcat(before.orders, cur.orders[|before.orders|..], NullUser);
    CountConcat(before.items, cur.items[|before.items|..], NullReference);
  }

  /** The order loop adds no orphan: every new order has a user and every new item an order and a product. */
  lemma NoNewOrphans(before: Db, db0: Db, cur: Db, first: int, next: int, done: seq<OrderChoice>,
                     userIds: seq<int>, now: Timestamp)
    requires WellFormed(before) && WellFormed(cur)
    requires before.orders == db0.orders && before.items == db0.items
    requires OrdersLoopInv(db0, cur, first, next, done, userIds, now)
    ensures OrphanedOrders(cur) == OrphanedOrders(before)
    ensures OrphanedItems(cur) == OrphanedItems(before)
  {
    NewOrdersHaveUsers(cur.orders[|db0.orders|..], done, first, userIds, now);
    NewItemsHaveReferences(cur.items[|db0.items|..], first, next, cur.products);
    NoOrphansAdded(before, cur);
  }

  /** The numbers verify_data_integrity prints. */
  datatype IntegrityReport = IntegrityReport(
    users: nat, products: nat, orders: nat, items: nat, correctSubtotals: int, incorrectSubtotals: nat)

  predicate WrongSubtotal(it: OrderItem) { it.subtotal != it.quantity * it.unitPrice }

  function VerifyDataIntegrity(db: Db): (r: IntegrityReport)
    ensures r.correctSubtotals + r.incorrectSubtotals == r.items == |db.items|
    ensures r.incorrectSubtotals == 0 <==> forall it :: it in db.items ==> !WrongSubtotal(it)
  {
    var wrong := Count(db.items, WrongSubtotal);
    IntegrityReport(|db.users|, |db.products|, |db.orders|, |db.items|, |db.items| - wrong, wrong)
  }

  /** The generated subtotal column makes every subtotal correct. */
  lemma IntegrityOfWellFormed(db: Db)
    requires WellFormed(db)
    ensures VerifyDataIntegrity(db).incorrectSubtotals == 0
    ensures VerifyDataIntegrity(db).correctSubtotals == |db.items|
  {
    assert forall it :: it in db.items ==> ItemRowOk(it);
  }

  // ---------------------------------------------------------------------------
  // generate_sample_data
  // ---------------------------------------------------------------------------

  /** Every id the SELECT returns names a row of the table. */
  lemma FetchedIdsPresent(db: Db)
    ensures forall uid :: uid in KeysOf(db.users, UserKey) ==> HasUser(db, uid)
    ensures forall pid :: pid in KeysOf(db.products, ProductKey) ==> HasProduct(db, pid)
  {
    forall uid | uid in KeysOf(db.users, UserKey) ensures HasUser(db, uid) {
      var i :| 0 <= i < |db.users| && KeysOf(db.users, UserKey)[i] == uid;
      assert db.users[i] in db.users;
    }
    forall pid | pid in KeysOf(db.products, ProductKey) ensures HasProduct(db, pid) {
      var i :| 0 <= i < |db.products| && KeysOf(db.products, ProductKey)[i] == pid;
      assert db.products[i] in db.products;
    }
  }

  /**
   * The whole pass in one transaction. A rejected user row (an e-mail
   * already in the table) rolls everything back; nothing else can fail.
   * On success the pass commits 100 users, 50 products and 200 orders with
   * their items, adds no orphan, and keeps every order's total equal to the
   * sum of its items' subtotals.
   */
  method GenerateSampleData(store: Store, userSeeds: seq<UserSeed>, productSeeds: seq<ProductSeed>,
                            orderChoices: seq<OrderChoice>, endDate: Timestamp, now: Timestamp)
    returns (result: SeedResult)
    requires store.Valid() && store.committed == store.Current()
    requires |userSeeds| == UserCount && |productSeeds| == ProductCount && |orderChoices| == OrderCount
    requires forall s :: s in productSeeds ==> s.category in Categories && MinPrice <= s.price <= MaxPrice
    requires forall c :: c in orderChoices ==>
      ChoiceInRange(c, |store.users| + UserCount, |store.products| + ProductCount, endDate)
    modifies store
    ensures store.Valid() && store.committed == store.Current()
    ensures result.SeedFailed? ==> result.error == UniqueViolation && store.Current() == old(store.Current())
    ensures result.Seeded? ==>
      && store.users == old(store.users) + SeedUsers(userSeeds, old(store.nextUserId), now)
      && store.products == old(store.products) + SeedProducts(productSeeds, old(store.nextProductId), now)
      && OrdersLoopInv(Db(store.users, store.products, old(store.orders), old(store.items)), store.Current(),
           old(store.nextOrderId), store.nextOrderId, orderChoices, KeysOf(store.users, UserKey), now)
      && result == Seeded(OrphanedOrders(old(store.Current())), OrphanedItems(old(store.Current())))
    ensures result.Seeded? && TotalsConsistent(old(store.Current())) ==> TotalsConsistent(store.Current())
    ensures result.Seeded? && CompletedItemsHaveProducts(old(store.Current())) ==> CompletedItemsHaveProducts(store.Current())
  {
    ghost var before := store.Current();
    var err := InsertUsers(store, userSeeds, now);
    if err.Some? {
      store.Rollback();
      return SeedFailed(err.value);
    }
    InsertProducts(store, productSeeds, now);
    var userIds := KeysOf(store.users, UserKey);
    var productIds := KeysOf(store.products, ProductKey);
    FetchedIdsPresent(store.Current());
    ghost var db0 := store.Current();
    SeedOrders(store, orderChoices, userIds, productIds, endDate, now);
    var orphanedOrders := OrphanedOrders(store.Current());
    var orphanedItems := OrphanedItems(store.Current());
    NoNewOrphans(before, db0, store.Current(), old(store.nextOrderId), store.nextOrderId, orderChoices, userIds, now);
    store.Commit();
    result := Seeded(orphanedOrders, orphanedItems);
  }
}
