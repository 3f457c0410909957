/**
 * The fact store: the four tables as mutable relations, the SERIAL sequences
 * that number their rows, and one open transaction.
 *
 * Every write enforces the schema's constraints and either applies in full
 * or is rejected with the constraint it violates, leaving every table as it
 * was. Inserts stamp created_at and updated_at with the column default
 * CURRENT_TIMESTAMP; updates run the set_updated_at trigger, which
 * overwrites updated_at with NOW() and keeps created_at. Both are the start
 * time of the transaction; each method takes it as its parameter `now`.
 * Deleting an order cascades to its
 * items. Sequences are not transactional: a rollback restores the tables of
 * the last commit but not the counters.
 */
module FactStore {
  import opened Relational
  import opened Schema

  /** The constraint a rejected write violates. */
  datatype DbError = StringTooLong | CheckViolation | UniqueViolation | ForeignKeyViolation

  datatype Result<T> = Ok(value: T) | Err(error: DbError)

  /** The status column as written: NULL, or text the CHECK parses (VARCHAR(20) first). */
  function StatusColumn(text: Option<string>): (r: Result<Option<Status>>)
    ensures text.None? ==> r == Ok(None)
    ensures r.Ok? && r.value.Some? ==> text == Some(StatusName(r.value.value))
    ensures r.Err? ==> text.Some? && (r.error == StringTooLong <==> |text.value| > StatusMax)
    ensures text.Some? && |text.value| <= StatusMax ==> (r.Err? <==> ParseStatus(text.value).None?)
  {
    match text
    case None => Ok(None)
    case Some(t) =>
      if |t| > StatusMax then Err(StringTooLong)
      else match ParseStatus(t)
        case None => Err(CheckViolation)
        case Some(st) => Ok(Some(st))
  }

  class Store {
    var users: seq<User>
    var products: seq<Product>
    var orders: seq<Order>
    var items: seq<OrderItem>
    /** The value each SERIAL sequence hands out next. */
    var nextUserId: int
    var nextProductId: int
    var nextOrderId: int
    var nextItemId: int
    /** The tables as of the last commit. */
    var committed: Db

    function Current(): Db
      reads this
    {
      Db(users, products, orders, items)
    }

    ghost predicate Valid()
      reads this
    {
      && WellFormed(Current())
      && WellFormed(committed)
      && IdsBelow(Current(), nextUserId, nextProductId, nextOrderId, nextItemId)
      && IdsBelow(committed, nextUserId, nextProductId, nextOrderId, nextItemId)
    }

    /** Freshly created, empty tables; every sequence starts at 1. */
    constructor()
      ensures Valid()
      ensures Current() == Db([], [], [], []) && committed == Current()
      ensures nextUserId == 1 && nextProductId == 1 && nextOrderId == 1 && nextItemId == 1
    {
      users, products, orders, items := [], [], [], [];
      nextUserId, nextProductId, nextOrderId, nextItemId := 1, 1, 1, 1;
      committed := Db([], [], [], []);
    }

    // -------------------------------------------------------------------------
    // INSERT
    // -------------------------------------------------------------------------

    method InsertUser(first: string, last: string, email: string, country: Option<string>, city: Option<string>, now: Timestamp)
      returns (r: Result<int>)
      requires Valid()
      modifies this
      ensures Valid()
      ensures r.Err? <==> !UserFits(first, last, email, country, city) || !EmailFree(old(users), email, old(nextUserId))
      ensures r.Err? ==> r.error == (if UserFits(first, last, email, country, city) then UniqueViolation else StringTooLong)
      ensures r.Err? ==> unchanged(this)
      ensures r.Ok? ==>
        && r.value == old(nextUserId) && nextUserId == old(nextUserId) + 1
        && Current() == old(Current()).(users := old(users) + [User(r.value, first, last, email, country, city, now, now)])
        && nextProductId == old(nextProductId) && nextOrderId == old(nextOrderId)
        && nextItemId == old(nextItemId) && committed == old(committed)
    {
      if !UserFits(first, last, email, country, city) {
        return Err(StringTooLong);
      }
      if !EmailFree(users, email, nextUserId) {
        return Err(UniqueViolation);
      }
      var u := User(nextUserId, first, last, email, country, city, now, now);
      AddUserWellFormed(Current(), u);
      users := users + [u];
      r := Ok(nextUserId);
      nextUserId := nextUserId + 1;
    }

    method InsertProduct(title: string, price: Cents, category: Option<string>, now: Timestamp)
      returns (r: Result<int>)
      requires Valid()
      modifies this
      ensures Valid()
      ensures r.Err? <==> !ProductFits(title, category)
      ensures r.Err? ==> r.error == StringTooLong && unchanged(this)
      ensures r.Ok? ==>
        && r.value == old(nextProductId) && nextProductId == old(nextProductId) + 1
        && Current() == old(Current()).(products := old(products) + [Product(r.value, title, price, category, now, now)])
        && nextUserId == old(nextUserId) && nextOrderId == old(nextOrderId)
        && nextItemId == old(nextItemId) && committed == old(committed)
    {
      if !ProductFits(title, category) {
        return Err(StringTooLong);
      }
      var p := Product(nextProductId, title, price, category, now, now);
      AddProductWellFormed(Current(), p);
      products := products + [p];
      r := Ok(nextProductId);
      nextProductId := nextProductId + 1;
    }

    /**
     * INSERT INTO orders; orderDate None stands for the column left out of
     * the statement, which takes its default CURRENT_TIMESTAMP (`now`).
     */
    method InsertOrder(userId: Option<int>, orderDate: Option<Timestamp>, totalAmount: Cents, status: Option<string>, now: Timestamp)
      returns (r: Result<int>)
      requires Valid()
      modifies this
      ensures Valid()
      ensures r.Err? <==> StatusColumn(status).Err? || (userId.Some? && !HasUser(old(Current()), userId.value))
      ensures r.Err? ==> unchanged(this)
      ensures r.Err? && StatusColumn(status).Ok? ==> r.error == ForeignKeyViolation
      ensures r.Ok? ==>
        && r.value == old(nextOrderId) && nextOrderId == old(nextOrderId) + 1
        && Current() == old(Current()).(orders := old(orders) +
             [Order(r.value, userId, if orderDate.Some? then orderDate.value else now,
                    totalAmount, StatusColumn(status).value, now, now)])
        && nextUserId == old(nextUserId) && nextProductId == old(nextProductId)
        && nextItemId == old(nextItemId) && committed == old(committed)
    {
      var st := StatusColumn(status);
      if st.Err? {
        return Err(st.error);
      }
      if userId.Some? && !HasUser(Current(), userId.value) {
        return Err(ForeignKeyViolation);
      }
      var date := if orderDate.Some? then orderDate.value else now;
      r := Ok(nextOrderId);
      AppendOrder(Order(nextOrderId, userId, date, totalAmount, st.value, now, now));
    }

    /** INSERT INTO order_items; the caller never supplies subtotal, the store computes it. */
    method InsertOrderItem(orderId: Option<int>, productId: Option<int>, quantity: int, unitPrice: Cents, now: Timestamp)
      returns (r: Result<int>)
      requires Valid()
      modifies this
      ensures Valid()
      ensures r.Err? <==>
        || quantity <= 0
        || (orderId.Some? && !HasOrder(old(Current()), orderId.value))
        || (productId.Some? && !HasProduct(old(Current()), productId.value))
      ensures r.Err? ==> unchanged(this)
      ensures r.Err? ==> r.error == (if quantity <= 0 then CheckViolation else ForeignKeyViolation)
      ensures r.Ok? ==>
        && r.value == old(nextItemId) && nextItemId == old(nextItemId) + 1
        && Current() == old(Current()).(items := old(items) +
             [OrderItem(r.value, orderId, productId, quantity, unitPrice, quantity * unitPrice, now, now)])
        && nextUserId == old(nextUserId) && nextProductId == old(nextProductId)
        && nextOrderId == old(nextOrderId) && committed == old(committed)
    {
      if quantity <= 0 {
        return Err(CheckViolation);
      }
      if (orderId.Some? && !HasOrder(Current(), orderId.value))
        || (productId.Some? && !HasProduct(Current(), productId.value)) {
        return Err(ForeignKeyViolation);
      }
      r := Ok(nextItemId);
      AppendItem(OrderItem(nextItemId, orderId, productId, quantity, unitPrice, quantity * unitPrice, now, now));
    }

    // -------------------------------------------------------------------------
    // UPDATE ... WHERE id = k (one row or none); the trigger stamps updated_at
    // -------------------------------------------------------------------------

    /** Ok(false) when no row has this id: nothing is updated and no constraint is checked. */
    method UpdateUser(id: int, first: string, last: string, email: string, country: Option<string>, city: Option<string>, now: Timestamp)
      returns (r: Result<bool>)
      requires Valid()
      modifies this
      ensures Valid()
      ensures nextUserId == old(nextUserId) && nextProductId == old(nextProductId)
      ensures nextOrderId == old(nextOrderId) && nextItemId == old(nextItemId) && committed == old(committed)
      ensures products == old(products) && orders == old(orders) && items == old(items)
      ensures IndexOf(old(users), UserKey, id).None? ==> r == Ok(false) && users == old(users)
      ensures r.Ok? ==> (r.value <==> IndexOf(old(users), UserKey, id).Some?)
      ensures IndexOf(old(users), UserKey, id).Some? ==>
        (r.Err? <==> !UserFits(first, last, email, country, city) || !EmailFree(old(users), email, id))
      ensures r.Err? ==> users == old(users)
      ensures r == Ok(true) ==>
        && IndexOf(old(users), UserKey, id).Some?
        && users == old(users)[IndexOf(old(users), UserKey, id).value := User(id, first, last, email, country, city, old(users)[IndexOf(old(users), UserKey, id).value].createdAt, now)]
    {
      var ix := IndexOf(users, UserKey, id);
      if ix.None? {
        return Ok(false);
      }
      var i := ix.value;
      if !UserFits(first, last, email, country, city) {
        return Err(StringTooLong);
      }
      if !EmailFree(users, email, id) {
        return Err(UniqueViolation);
      }
      var u := User(id, first, last, email, country, city, users[i].createdAt, now);
      ReplaceUserWellFormed(Current(), i, u);
      users := users[i := u];
      r := Ok(true);
    }

    method UpdateProduct(id: int, title: string, price: Cents, category: Option<string>, now: Timestamp)
      returns (r: Result<bool>)
      requires Valid()
      modifies this
      ensures Valid()
      ensures nextUserId == old(nextUserId) && nextProductId == old(nextProductId)
      ensures nextOrderId == old(nextOrderId) && nextItemId == old(nextItemId) && committed == old(committed)
      ensures users == old(users) && orders == old(orders) && items == old(items)
      ensures IndexOf(old(products), ProductKey, id).None? ==> r == Ok(false) && products == old(products)
      ensures r.Ok? ==> (r.value <==> IndexOf(old(products), ProductKey, id).Some?)
      ensures IndexOf(old(products), ProductKey, id).Some? ==> (r.Err? <==> !ProductFits(title, category))
      ensures r.Err? ==> products == old(products)
      ensures r == Ok(true) ==>
        && IndexOf(old(products), ProductKey, id).Some?
        && products == old(products)[IndexOf(old(products), ProductKey, id).value := Product(id, title, price, category, old(products)[IndexOf(old(products), ProductKey, id).value].createdAt, now)]
    {
      var ix := IndexOf(products, ProductKey, id);
      if ix.None? {
        return Ok(false);
      }
      var i := ix.value;
      if !ProductFits(title, category) {
        return Err(StringTooLong);
      }
      var p := Product(id, title, price, category, products[i].createdAt, now);
      ReplaceProductWellFormed(Current(), i, p);
      products := products[i := p];
      r := Ok(true);
    }

    method UpdateOrder(id: int, userId: Option<int>, orderDate: Timestamp, totalAmount: Cents, status: Option<string>, now: Timestamp)
      returns (r: Result<bool>)
      requires Valid()
      modifies this
      ensures Valid()
      ensures nextUserId == old(nextUserId) && nextProductId == old(nextProductId)
      ensures nextOrderId == old(nextOrderId) && nextItemId == old(nextItemId) && committed == old(committed)
      ensures users == old(users) && products == old(products) && items == old(items)
      ensures IndexOf(old(orders), OrderKey, id).None? ==> r == Ok(false) && orders == old(orders)
      ensures r.Ok? ==> (r.value <==> IndexOf(old(orders), OrderKey, id).Some?)
      ensures IndexOf(old(orders), OrderKey, id).Some? ==>
        (r.Err? <==> StatusColumn(status).Err? || (userId.Some? && !HasUser(old(Current()), userId.value)))
      ensures r.Err? ==> orders == old(orders)
      ensures r == Ok(true) ==>
        && IndexOf(old(orders), OrderKey, id).Some? && StatusColumn(status).Ok?
        && orders == old(orders)[IndexOf(old(orders), OrderKey, id).value := Order(id, userId, orderDate, totalAmount, StatusColumn(status).value, old(orders)[IndexOf(old(orders), OrderKey, id).value].createdAt, now)]
    {
      var ix := IndexOf(orders, OrderKey, id);
      if ix.None? {
        return Ok(false);
      }
      var i := ix.value;
      var st := StatusColumn(status);
      if st.Err? {
        return Err(st.error);
      }
      if userId.Some? && !HasUser(Current(), userId.value) {
        return Err(ForeignKeyViolation);
      }
      WriteOrder(i, Order(id, userId, orderDate, totalAmount, st.value, orders[i].createdAt, now));
      r := Ok(true);
    }

    /** The generated subtotal is recomputed from the new quantity and unit price. */
    method UpdateOrderItem(id: int, orderId: Option<int>, productId: Option<int>, quantity: int, unitPrice: Cents, now: Timestamp)
      returns (r: Result<bool>)
      requires Valid()
      modifies this
      ensures Valid()
      ensures nextUserId == old(nextUserId) && nextProductId == old(nextProductId)
      ensures nextOrderId == old(nextOrderId) && nextItemId == old(nextItemId) && committed == old(committed)
      ensures users == old(users) && products == old(products) && orders == old(orders)
      ensures IndexOf(old(items), ItemKey, id).None? ==> r == Ok(false) && items == old(items)
      ensures r.Ok? ==> (r.value <==> IndexOf(old(items), ItemKey, id).Some?)
      ensures IndexOf(old(items), ItemKey, id).Some? ==>
        (r.Err? <==>
          || quantity <= 0
          || (orderId.Some? && !HasOrder(old(Current()), orderId.value))
          || (productId.Some? && !HasProduct(old(Current()), productId.value)))
      ensures r.Err? ==> items == old(items)
      ensures r == Ok(true) ==>
        && IndexOf(old(items), ItemKey, id).Some?
        && items == old(items)[IndexOf(old(items), ItemKey, id).value := OrderItem(id, orderId, productId, quantity, unitPrice, quantity * unitPrice, old(items)[IndexOf(old(items), ItemKey, id).value].createdAt, now)]
    {
      var ix := IndexOf(items, ItemKey, id);
      if ix.None? {
        return Ok(false);
      }
      var i := ix.value;
      if quantity <= 0 {
        return Err(CheckViolation);
      }
      if (orderId.Some? && !HasOrder(Current(), orderId.value))
        || (productId.Some? && !HasProduct(Current(), productId.value)) {
        return Err(ForeignKeyViolation);
      }
      WriteItem(i, OrderItem(id, orderId, productId, quantity, unitPrice, quantity * unitPrice, items[i].createdAt, now));
      r := Ok(true);
    }

    // -------------------------------------------------------------------------
    // Row writes behind INSERT and UPDATE, once every constraint has passed
    // -------------------------------------------------------------------------

    /** Appends an order row carrying the next SERIAL id and advances the sequence. */
    method AppendOrder(o: Order)
      requires Valid() && o.id == nextOrderId
      requires o.userId.Some? ==> HasUser(Current(), o.userId.value)
      modifies this
      ensures Valid()
      ensures orders == old(orders) + [o] && nextOrderId == old(nextOrderId) + 1
      ensures users == old(users) && products == old(products) && items == old(items)
      ensures nextUserId == old(nextUserId) && nextProductId == old(nextProductId)
      ensures nextItemId == old(nextItemId) && committed == old(committed)
    {
      AddOrderWellFormed(Current(), o);
      orders := orders + [o];
      nextOrderId := nextOrderId + 1;
    }

    /** Appends an item row carrying the next SERIAL id and advances the sequence. */
    method AppendItem(it: OrderItem)
      requires Valid() && it.id == nextItemId && ItemRowOk(it)
      requires it.orderId.Some? ==> HasOrder(Current(), it.orderId.value)
      requires it.productId.Some? ==> HasProduct(Current(), it.productId.value)
      modifies this
      ensures Valid()
      ensures items == old(items) + [it] && nextItemId == old(nextItemId) + 1
      ensures users == old(users) && products == old(products) && orders == old(orders)
      ensures nextUserId == old(nextUserId) && nextProductId == old(nextProductId)
      ensures nextOrderId == old(nextOrderId) && committed == old(committed)
    {
      AddItemWellFormed(Current(), it);
      items := items + [it];
      nextItemId := nextItemId + 1;
    }

    /** Overwrites order row i with a row of the same id. */
    method WriteOrder(i: nat, o: Order)
      requires Valid() && i < |orders| && o.id == orders[i].id
      requires o.userId.Some? ==> HasUser(Current(), o.userId.value)
      modifies this
      ensures Valid()
      ensures orders == old(orders)[i := o]
      ensures users == old(users) && products == old(products) && items == old(items)
      ensures nextUserId == old(nextUserId) && nextProductId == old(nextProductId)
      ensures nextOrderId == old(nextOrderId) && nextItemId == old(nextItemId) && committed == old(committed)
    {
      ReplaceOrderWellFormed(Current(), i, o);
      orders := orders[i := o];
    }

    /** Overwrites item row i with a valid row of the same id. */
    method WriteItem(i: nat, it: OrderItem)
      requires Valid() && i < |items| && it.id == items[i].id && ItemRowOk(it)
      requires it.orderId.Some? ==> HasOrder(Current(), it.orderId.value)
      requires it.productId.Some? ==> HasProduct(Current(), it.productId.value)
      modifies this
      ensures Valid()
      ensures items == old(items)[i := it]
      ensures users == old(users) && products == old(products) && orders == old(orders)
      ensures nextUserId == old(nextUserId) && nextProductId == old(nextProductId)
      ensures nextOrderId == old(nextOrderId) && nextItemId == old(nextItemId) && committed == old(committed)
    {
      ReplaceItemWellFormed(Current(), i, it);
      items := items[i := it];
    }

    // -------------------------------------------------------------------------
    // DELETE ... WHERE id = k
    // -------------------------------------------------------------------------

    /** A user some order still references cannot be deleted (REFERENCES without an action). */
    method DeleteUser(id: int) returns (r: Result<bool>)
      requires Valid()
      modifies this
      ensures Valid()
      ensures nextUserId == old(nextUserId) && nextProductId == old(nextProductId)
      ensures nextOrderId == old(nextOrderId) && nextItemId == old(nextItemId) && committed == old(committed)
      ensures products == old(products) && orders == old(orders) && items == old(items)
      ensures r.Err? <==> exists o :: o in old(orders) && o.userId == Some(id)
      ensures r.Err? ==> r.error == ForeignKeyViolation && users == old(users)
      ensures r.Ok? ==> r.value == HasUser(old(Current()), id) && users == WithoutKey(old(users), UserKey, id)
    {
      if exists o :: o in orders && o.userId == Some(id) {
        return Err(ForeignKeyViolation);
      }
      RemoveUserWellFormed(Current(), id);
      r := Ok(HasUser(Current(), id));
      users := WithoutKey(users, UserKey, id);
    }

    /** A product some item still references cannot be deleted. */
    method DeleteProduct(id: int) returns (r: Result<bool>)
      requires Valid()
      modifies this
      ensures Valid()
      ensures nextUserId == old(nextUserId) && nextProductId == old(nextProductId)
      ensures nextOrderId == old(nextOrderId) && nextItemId == old(nextItemId) && committed == old(committed)
      ensures users == old(users) && orders == old(orders) && items == old(items)
      ensures r.Err? <==> exists it :: it in old(items) && it.productId == Some(id)
      ensures r.Err? ==> r.error == ForeignKeyViolation && products == old(products)
      ensures r.Ok? ==> r.value == HasProduct(old(Current()), id) && products == WithoutKey(old(products), ProductKey, id)
    {
      if exists it :: it in items && it.productId == Some(id) {
        return Err(ForeignKeyViolation);
      }
      RemoveProductWellFormed(Current(), id);
      r := Ok(HasProduct(Current(), id));
      products := WithoutKey(products, ProductKey, id);
    }

    /** ON DELETE CASCADE: the order goes, and with it exactly the items that reference it. */
    method DeleteOrder(id: int) returns (removed: bool)
      requires Valid()
      modifies this
      ensures Valid()
      ensures nextUserId == old(nextUserId) && nextProductId == old(nextProductId)
      ensures nextOrderId == old(nextOrderId) && nextItemId == old(nextItemId) && committed == old(committed)
      ensures users == old(users) && products == old(products)
      ensures removed == HasOrder(old(Current()), id)
      ensures orders == WithoutKey(old(orders), OrderKey, id)
      ensures items == WithoutKey(old(items), ItemOrderRef, Some(id))
      ensures forall it :: it in old(items) ==> (it in items <==> it.orderId != Some(id))
    {
      RemoveOrderWellFormed(Current(), id);
      removed := HasOrder(Current(), id);
      orders := WithoutKey(orders, OrderKey, id);
      items := WithoutKey(items, ItemOrderRef, Some(id));
    }

    method DeleteOrderItem(id: int) returns (removed: bool)
      requires Valid()
      modifies this
      ensures Valid()
      ensures nextUserId == old(nextUserId) && nextProductId == old(nextProductId)
      ensures nextOrderId == old(nextOrderId) && nextItemId == old(nextItemId) && committed == old(committed)
      ensures users == old(users) && products == old(products) && orders == old(orders)
      ensures removed == Lookup(old(items), ItemKey, id).Some?
      ensures items == WithoutKey(old(items), ItemKey, id)
    {
      RemoveItemWellFormed(Current(), id);
      removed := Lookup(items, ItemKey, id).Some?;
      items := WithoutKey(items, ItemKey, id);
    }

    // -------------------------------------------------------------------------
    // Transaction control
    // -------------------------------------------------------------------------

    method Commit()
      requires Valid()
      modifies this
      ensures Valid()
      ensures committed == Current() && Current() == old(Current())
      ensures nextUserId == old(nextUserId) && nextProductId == old(nextProductId)
      ensures nextOrderId == old(nextOrderId) && nextItemId == old(nextItemId)
    {
      committed := Current();
    }

    /** The tables return to the last commit; the sequences keep the values they reached. */
    method Rollback()
      requires Valid()
      modifies this
      ensures Valid()
      ensures Current() == old(committed) && committed == old(committed)
      ensures nextUserId == old(nextUserId) && nextProductId == old(nextProductId)
      ensures nextOrderId == old(nextOrderId) && nextItemId == old(nextItemId)
    {
      users, products, orders, items := committed.users, committed.products, committed.orders, committed.items;
    }
  }
}
