/**
 * The four fact tables as rows, a snapshot of the database, and the
 * constraints that the CREATE TABLE statements declare: SERIAL primary keys,
 * NOT NULL (by the field types), VARCHAR(n) lengths, UNIQUE(email),
 * CHECK(order_status IN ...), CHECK(quantity > 0), REFERENCES, and the
 * generated column subtotal = quantity * unit_price.
 *
 * Money is DECIMAL(10,2) held as a whole number of cents; a TIMESTAMP is
 * whole seconds since 1970-01-01 00:00.
 */
module Schema {
  import opened Relational

  type Cents = int
  type Timestamp = int

  const FirstNameMax: nat := 50
  const LastNameMax: nat := 50
  const EmailMax: nat := 100
  const PlaceMax: nat := 50
  const TitleMax: nat := 200
  const CategoryMax: nat := 50
  const StatusMax: nat := 20

  /** The three values CHECK(order_status IN (...)) admits. */
  datatype Status = Processing | Completed | Cancelled

  datatype User = User(
    id: int, firstName: string, lastName: string, email: string,
    country: Option<string>, city: Option<string>,
    createdAt: Timestamp, updatedAt: Timestamp)

  datatype Product = Product(
    id: int, title: string, price: Cents, category: Option<string>,
    createdAt: Timestamp, updatedAt: Timestamp)

  datatype Order = Order(
    id: int, userId: Option<int>, orderDate: Timestamp, totalAmount: Cents,
    status: Option<Status>, createdAt: Timestamp, updatedAt: Timestamp)

  datatype OrderItem = OrderItem(
    id: int, orderId: Option<int>, productId: Option<int>, quantity: int,
    unitPrice: Cents, subtotal: Cents, createdAt: Timestamp, updatedAt: Timestamp)

  /** The contents of the four tables at one moment. */
  datatype Db = Db(users: seq<User>, products: seq<Product>, orders: seq<Order>, items: seq<OrderItem>)

  function UserKey(u: User): int { u.id }
  function ProductKey(p: Product): int { p.id }
  function OrderKey(o: Order): int { o.id }
  function ItemKey(i: OrderItem): int { i.id }
  function ItemOrderRef(i: OrderItem): Option<int> { i.orderId }

  /** The spelling of a status in the order_status column. */
  function StatusName(s: Status): string
  {
    match s
    case Processing => "processing"
    case Completed => "completed"
    case Cancelled => "cancelled"
  }

  /** The CHECK on order_status: one of the three names, anything else is rejected. */
  function ParseStatus(s: string): (r: Option<Status>)
    ensures r.Some? ==> StatusName(r.value) == s
  {
    if s == "processing" then Some(Processing)
    else if s == "completed" then Some(Completed)
    else if s == "cancelled" then Some(Cancelled)
    else None
  }

  /** Every status survives a trip through its column spelling. */
  lemma ParseStatusName(s: Status)
    ensures ParseStatus(StatusName(s)) == Some(s)
    ensures |StatusName(s)| <= StatusMax
  {
  }

  predicate FitsOpt(s: Option<string>, n: nat)
  {
    s.None? || |s.value| <= n
  }

  /** VARCHAR(n) limits of the users table. */
  predicate UserFits(first: string, last: string, email: string, country: Option<string>, city: Option<string>)
  {
    |first| <= FirstNameMax && |last| <= LastNameMax && |email| <= EmailMax
    && FitsOpt(country, PlaceMax) && FitsOpt(city, PlaceMax)
  }

  /** VARCHAR(n) limits of the products table. */
  predicate ProductFits(title: string, category: Option<string>)
  {
    |title| <= TitleMax && FitsOpt(category, CategoryMax)
  }

  predicate HasUser(db: Db, id: int) { Lookup(db.users, UserKey, id).Some? }
  predicate HasProduct(db: Db, id: int) { Lookup(db.products, ProductKey, id).Some? }
  predicate HasOrder(db: Db, id: int) { Lookup(db.orders, OrderKey, id).Some? }

  /** The item-level CHECK and the generated column. */
  predicate ItemRowOk(i: OrderItem)
  {
    i.quantity > 0 && i.subtotal == i.quantity * i.unitPrice
  }

  /** UNIQUE(email): two rows with the same email are the same row. */
  ghost predicate UniqueEmails(users: seq<User>)
  {
    forall u, v :: u in users && v in users && u.email == v.email ==> u.id == v.id
  }

  /** No row other than the one with id `self` uses this email. */
  predicate EmailFree(users: seq<User>, email: string, self: int)
  {
    forall v :: v in users && v.id != self ==> v.email != email
  }

  /** Every constraint declared by the schema holds. */
  ghost predicate WellFormed(db: Db)
  {
    && Increasing(db.users, UserKey)
    && Increasing(db.products, ProductKey)
    && Increasing(db.orders, OrderKey)
    && Increasing(db.items, ItemKey)
    && UniqueEmails(db.users)
    && (forall u :: u in db.users ==> UserFits(u.firstName, u.lastName, u.email, u.country, u.city))
    && (forall p :: p in db.products ==> ProductFits(p.title, p.category))
    // a NULL reference satisfies REFERENCES
    && (forall o :: o in db.orders && o.userId.Some? ==> HasUser(db, o.userId.value))
    && (forall i :: i in db.items ==> ItemRowOk(i))
    && (forall i :: i in db.items && i.orderId.Some? ==> HasOrder(db, i.orderId.value))
    && (forall i :: i in db.items && i.productId.Some? ==> HasProduct(db, i.productId.value))
  }

  /** Every id in the snapshot is below the given SERIAL counters. */
  ghost predicate IdsBelow(db: Db, nextUser: int, nextProduct: int, nextOrder: int, nextItem: int)
  {
    && (forall u :: u in db.users ==> u.id < nextUser)
    && (forall p :: p in db.products ==> p.id < nextProduct)
    && (forall o :: o in db.orders ==> o.id < nextOrder)
    && (forall i :: i in db.items ==> i.id < nextItem)
  }

  // ---------------------------------------------------------------------------
  // Every accepted write keeps the constraints
  // ---------------------------------------------------------------------------

  lemma InReplaced<T(!new)>(s: seq<T>, i: nat, x: T, y: T)
    requires i < |s| && y in s[i := x]
    ensures y == x || exists j :: 0 <= j < |s| && j != i && s[j] == y
  {
  }

  /** INSERT INTO users of a row with a fresh SERIAL id, fitting strings and an unused email. */
  lemma AddUserWellFormed(db: Db, u: User)
    requires WellFormed(db)
    requires forall v :: v in db.users ==> v.id < u.id
    requires UserFits(u.firstName, u.lastName, u.email, u.country, u.city)
    requires EmailFree(db.users, u.email, u.id)
    ensures WellFormed(db.(users := db.users + [u]))
    ensures forall v :: v in db.users + [u] <==> v in db.users || v == u
  {
    var db' := db.(users := db.users + [u]);
    forall k | HasUser(db, k) ensures HasUser(db', k) {
      LookupSomeAppend(db.users, UserKey, u, k);
    }
    assert forall v :: v in db'.users <==> v in db.users || v == u;
    assert Increasing(db'.users, UserKey) by {
      forall i, j | 0 <= i < j < |db'.users| ensures db'.users[i].id < db'.users[j].id {
        if j == |db.users| {
          assert db'.users[i] in db.users;
        }
      }
    }
  }

  /** INSERT INTO products of a row with a fresh SERIAL id and fitting strings. */
  lemma AddProductWellFormed(db: Db, p: Product)
    requires WellFormed(db)
    requires forall v :: v in db.products ==> v.id < p.id
    requires ProductFits(p.title, p.category)
    ensures WellFormed(db.(products := db.products + [p]))
    ensures forall v :: v in db.products + [p] <==> v in db.products || v == p
  {
    var db' := db.(products := db.products + [p]);
    forall k | HasProduct(db, k) ensures HasProduct(db', k) {
      LookupSomeAppend(db.products, ProductKey, p, k);
    }
    assert forall v :: v in db'.products <==> v in db.products || v == p;
    assert Increasing(db'.products, ProductKey) by {
      forall i, j | 0 <= i < j < |db'.products| ensures db'.products[i].id < db'.products[j].id {
        if j == |db.products| {
          assert db'.products[i] in db.products;
        }
      }
    }
  }

  /** INSERT INTO orders of a row with a fresh SERIAL id whose user reference resolves. */
  lemma AddOrderWellFormed(db: Db, o: Order)
    requires WellFormed(db)
    requires forall v :: v in db.orders ==> v.id < o.id
    requires o.userId.Some? ==> HasUser(db, o.userId.value)
    ensures WellFormed(db.(orders := db.orders + [o]))
    ensures forall v :: v in db.orders + [o] <==> v in db.orders || v == o
  {
    var db' := db.(orders := db.orders + [o]);
    forall k | HasOrder(db, k) ensures HasOrder(db', k) {
      LookupSomeAppend(db.orders, OrderKey, o, k);
    }
    assert forall v :: v in db'.orders <==> v in db.orders || v == o;
    assert Increasing(db'.orders, OrderKey) by {
      forall i, j | 0 <= i < j < |db'.orders| ensures db'.orders[i].id < db'.orders[j].id {
        if j == |db.orders| {
          assert db'.orders[i] in db.orders;
        }
      }
    }
  }

  /** INSERT INTO order_items of a valid row with a fresh SERIAL id whose references resolve. */
  lemma AddItemWellFormed(db: Db, it: OrderItem)
    requires WellFormed(db)
    requires forall v :: v in db.items ==> v.id < it.id
    requires ItemRowOk(it)
    requires it.orderId.Some? ==> HasOrder(db, it.orderId.value)
    requires it.productId.Some? ==> HasProduct(db, it.productId.value)
    ensures WellFormed(db.(items := db.items + [it]))
    ensures forall v :: v in db.items + [it] <==> v in db.items || v == it
  {
    var db' := db.(items := db.items + [it]);
    assert forall v :: v in db'.items <==> v in db.items || v == it;
    assert Increasing(db'.items, ItemKey) by {
      forall i, j | 0 <= i < j < |db'.items| ensures db'.items[i].id < db'.items[j].id {
        if j == |db.items| {
          assert db'.items[i] in db.items;
        }
      }
    }
  }

  /** UPDATE users of row i, keeping its id, with fitting strings and an email no other row uses. */
  lemma ReplaceUserWellFormed(db: Db, i: nat, u: User)
    requires WellFormed(db)
    requires i < |db.users| && u.id == db.users[i].id
    requires UserFits(u.firstName, u.lastName, u.email, u.country, u.city)
    requires EmailFree(db.users, u.email, u.id)
    ensures WellFormed(db.(users := db.users[i := u]))
    ensures forall v :: v in db.users[i := u] ==> v == u || v in db.users
  {
    var db' := db.(users := db.users[i := u]);
    forall k | HasUser(db, k) ensures HasUser(db', k) {
      LookupSomeReplace(db.users, UserKey, i, u, k);
    }
    forall v | v in db'.users ensures v == u || v in db.users {
      InReplaced(db.users, i, u, v);
    }
    forall v, w | v in db'.users && w in db'.users && v.email == w.email ensures v.id == w.id {
      InReplaced(db.users, i, u, v);
      InReplaced(db.users, i, u, w);
    }
  }

  /** UPDATE products of row i, keeping its id, with fitting strings. */
  lemma ReplaceProductWellFormed(db: Db, i: nat, p: Product)
    requires WellFormed(db)
    requires i < |db.products| && p.id == db.products[i].id
    requires ProductFits(p.title, p.category)
    ensures WellFormed(db.(products := db.products[i := p]))
    ensures forall v :: v in db.products[i := p] ==> v == p || v in db.products
  {
    var db' := db.(products := db.products[i := p]);
    forall k | HasProduct(db, k) ensures HasProduct(db', k) {
      LookupSomeReplace(db.products, ProductKey, i, p, k);
    }
    forall v | v in db'.products ensures v == p || v in db.products {
      InReplaced(db.products, i, p, v);
    }
  }

  /** UPDATE orders of row i, keeping its id, with a user reference that resolves. */
  lemma ReplaceOrderWellFormed(db: Db, i: nat, o: Order)
    requires WellFormed(db)
    requires i < |db.orders| && o.id == db.orders[i].id
    requires o.userId.Some? ==> HasUser(db, o.userId.value)
    ensures WellFormed(db.(orders := db.orders[i := o]))
    ensures forall v :: v in db.orders[i := o] ==> v == o || v in db.orders
  {
    var db' := db.(orders := db.orders[i := o]);
    forall k | HasOrder(db, k) ensures HasOrder(db', k) {
      LookupSomeReplace(db.orders, OrderKey, i, o, k);
    }
    forall v | v in db'.orders ensures v == o || v in db.orders {
      InReplaced(db.orders, i, o, v);
    }
  }

  /** UPDATE order_items of row i, keeping its id, with a valid row whose references resolve. */
  lemma ReplaceItemWellFormed(db: Db, i: nat, it: OrderItem)
    requires WellFormed(db)
    requires i < |db.items| && it.id == db.items[i].id
    requires ItemRowOk(it)
    requires it.orderId.Some? ==> HasOrder(db, it.orderId.value)
    requires it.productId.Some? ==> HasProduct(db, it.productId.value)
    ensures WellFormed(db.(items := db.items[i := it]))
    ensures forall v :: v in db.items[i := it] ==> v == it || v in db.items
  {
    var db' := db.(items := db.items[i := it]);
    forall v | v in db'.items ensures v == it || v in db.items {
      InReplaced(db.items, i, it, v);
    }
  }

  /** DELETE FROM users of a row no order references. */
  lemma RemoveUserWellFormed(db: Db, k: int)
    requires WellFormed(db)
    requires forall o :: o in db.orders ==> o.userId != Some(k)
    ensures WellFormed(db.(users := WithoutKey(db.users, UserKey, k)))
  {
    var db' := db.(users := WithoutKey(db.users, UserKey, k));
    WithoutKeyIncreasing(db.users, UserKey, UserKey, k);
    forall j | HasUser(db, j) && j != k ensures HasUser(db', j) {
      LookupSomeWithout(db.users, UserKey, UserKey, k, j);
    }
  }

  /** DELETE FROM products of a row no item references. */
  lemma RemoveProductWellFormed(db: Db, k: int)
    requires WellFormed(db)
    requires forall it :: it in db.items ==> it.productId != Some(k)
    ensures WellFormed(db.(products := WithoutKey(db.products, ProductKey, k)))
  {
    var db' := db.(products := WithoutKey(db.products, ProductKey, k));
    WithoutKeyIncreasing(db.products, ProductKey, ProductKey, k);
    forall j | HasProduct(db, j) && j != k ensures HasProduct(db', j) {
      LookupSomeWithout(db.products, ProductKey, ProductKey, k, j);
    }
  }

  /** DELETE FROM orders with ON DELETE CASCADE: the order and exactly its items go. */
  lemma RemoveOrderWellFormed(db: Db, k: int)
    requires WellFormed(db)
    ensures WellFormed(db.(orders := WithoutKey(db.orders, OrderKey, k),
                           items := WithoutKey(db.items, ItemOrderRef, Some(k))))
  {
    var db' := db.(orders := WithoutKey(db.orders, OrderKey, k),
                   items := WithoutKey(db.items, ItemOrderRef, Some(k)));
    WithoutKeyIncreasing(db.orders, OrderKey, OrderKey, k);
    WithoutKeyIncreasing(db.items, ItemKey, ItemOrderRef, Some(k));
    forall j | HasOrder(db, j) && j != k ensures HasOrder(db', j) {
      LookupSomeWithout(db.orders, OrderKey, OrderKey, k, j);
    }
  }

  /** DELETE FROM order_items: nothing references an item. */
  lemma RemoveItemWellFormed(db: Db, k: int)
    requires WellFormed(db)
    ensures WellFormed(db.(items := WithoutKey(db.items, ItemKey, k)))
  {
    WithoutKeyIncreasing(db.items, ItemKey, ItemKey, k);
  }
}
