/**
 * The order repository over an in-memory relational store: a table of order
 * rows (id, customer_id, total) and a table of item rows, each carrying the
 * id of the order it belongs to. Orders are written as one parent row plus
 * one child row per line, and read back through the validating Order
 * constructor.
 */
module Repository {
  import opened Wrappers
  import opened OrderItems
  import opened Orders

  /** A row of the orders table. */
  datatype OrderRow = OrderRow(id: string, customerId: string, total: int)

  /** A row of the order items table; orderId is the foreign key to its order. */
  datatype ItemRow = ItemRow(id: string, name: string, price: int, quantity: int, productId: string, orderId: string)

  /** The failures of a read or an update: no such order, or stored rows that do not validate. */
  datatype RepositoryError = NotFound(id: string) | Invalid(message: string)

  // Translating between the aggregate and its rows

  /** The parent row written for an order; the stored total is the order's total(). */
  function ParentRow(o: Order): OrderRow {
    OrderRow(o.id, o.customerId, Total(o.items))
  }

  /** The child row written for a line of order orderId. */
  function ToRow(item: OrderItem, orderId: string): ItemRow {
    ItemRow(item.id, item.name, item.price, item.quantity, item.productId, orderId)
  }

  /**
   * The line rebuilt from a child row, each column passed to its own
   * constructor argument: writing the line back for the row's order gives
   * the row again, so no column is lost or swapped.
   */
  function ToItem(row: ItemRow): (item: OrderItem)
    ensures ToRow(item, row.orderId) == row
  {
    OrderItem(row.id, row.name, row.price, row.productId, row.quantity)
  }

  /** The child rows written for the lines of order orderId, one per line, in order. */
  function ToRows(items: seq<OrderItem>, orderId: string): (rows: seq<ItemRow>)
    ensures |rows| == |items|
    ensures forall i :: 0 <= i < |items| ==> rows[i] == ToRow(items[i], orderId)
  {
    seq(|items|, i requires 0 <= i < |items| => ToRow(items[i], orderId))
  }

  /** The lines rebuilt from child rows, one per row, in order. */
  function ToItems(rows: seq<ItemRow>): (items: seq<OrderItem>)
    ensures |items| == |rows|
    ensures forall i :: 0 <= i < |rows| ==> items[i] == ToItem(rows[i])
  {
    seq(|rows|, i requires 0 <= i < |rows| => ToItem(rows[i]))
  }

  /** Writing lines as rows and reading them back gives the same lines. */
  lemma ToItemsToRows(items: seq<OrderItem>, orderId: string)
    ensures ToItems(ToRows(items, orderId)) == items
  {
  }

  // Queries over the tables

  function OrderIds(orders: seq<OrderRow>): set<string> {
    set r | r in orders :: r.id
  }

  function ItemIds(rows: seq<ItemRow>): set<string> {
    set r | r in rows :: r.id
  }

  /** The child rows of order orderId, in table order. */
  function ItemsOf(rows: seq<ItemRow>, orderId: string): (r: seq<ItemRow>)
    ensures forall x :: x in r ==> x in rows && x.orderId == orderId
    decreases |rows|
  {
    if rows == [] then []
    else (if rows[0].orderId == orderId then [rows[0]] else []) + ItemsOf(rows[1..], orderId)
  }

  /** The delete of every child row of order orderId: the table without that order's rows. */
  function DeleteItemsOf(rows: seq<ItemRow>, orderId: string): (r: seq<ItemRow>)
    ensures forall x :: x in r <==> x in rows && x.orderId != orderId
    decreases |rows|
  {
    if rows == [] then []
    else (if rows[0].orderId != orderId then [rows[0]] else []) + DeleteItemsOf(rows[1..], orderId)
  }

  /** The lookup of an order row by its primary key: the position of the row with that id. */
  function RowIndex(orders: seq<OrderRow>, id: string): (k: Option<nat>)
    ensures k.None? <==> id !in OrderIds(orders)
    ensures k.Some? ==> k.value < |orders| && orders[k.value].id == id
    decreases |orders|
  {
    if orders == [] then None
    else if orders[0].id == id then Some(0)
    else
      assert OrderIds(orders) == {orders[0].id} + OrderIds(orders[1..]) by {
        assert forall r :: r in orders <==> r == orders[0] || r in orders[1..];
      }
      match RowIndex(orders[1..], id)
      case None => None
      case Some(j) => Some(j + 1)
  }

  /**
   * Rebuilding an order: new Order(id, row.customer_id, its child rows as
   * lines). Validation reruns and the total is recomputed from the lines;
   * the stored total is not read.
   */
  function Rebuild(id: string, row: OrderRow, rows: seq<ItemRow>): (r: Result<Order, RepositoryError>)
    ensures r.Success? <==> WellFormed(OrderData(id, row.customerId, ToItems(ItemsOf(rows, id))))
    ensures r.Success? ==> r.value == OrderData(id, row.customerId, ToItems(ItemsOf(rows, id)))
    ensures r.Failure? ==> r.error == Invalid(Validate(id, row.customerId, ToItems(ItemsOf(rows, id))).value)
  {
    match NewOrder(id, row.customerId, ToItems(ItemsOf(rows, id)))
    case Success(o) => Success(o)
    case Failure(message) => Failure(Invalid(message))
  }

  /** find(id): NotFound when no order row has that id, else the rebuilt order. */
  function FindIn(orders: seq<OrderRow>, rows: seq<ItemRow>, id: string): (r: Result<Order, RepositoryError>)
    ensures id !in OrderIds(orders) <==> r == Failure(NotFound(id))
    ensures r.Success? ==> r.value.id == id && r.value.items == ToItems(ItemsOf(rows, id))
  {
    match RowIndex(orders, id)
    case None => Failure(NotFound(id))
    case Some(k) => Rebuild(id, orders[k], rows)
  }

  /**
   * find(id) of a stored id: the order row's customer id and the order's
   * child rows, as lines, go through the validating constructor. The read
   * succeeds exactly when they form a valid order, which is then the order
   * returned; otherwise it fails with the constructor's validation message.
   */
  lemma FindStoredRebuilds(orders: seq<OrderRow>, rows: seq<ItemRow>, id: string)
    requires id in OrderIds(orders)
    ensures RowIndex(orders, id).Some?
    ensures var row := orders[RowIndex(orders, id).value];
      var lines := ToItems(ItemsOf(rows, id));
      && (FindIn(orders, rows, id).Success? <==> WellFormed(OrderData(id, row.customerId, lines)))
      && (FindIn(orders, rows, id).Success? ==> FindIn(orders, rows, id).value == OrderData(id, row.customerId, lines))
      && (FindIn(orders, rows, id).Failure? ==> FindIn(orders, rows, id).error == Invalid(Validate(id, row.customerId, lines).value))
  {
  }

  /**
   * findAll(): one rebuilt order per order row, in table order; a row
   * that fails to rebuild fails the whole call, and FindAllInFirstFailure
   * shows the error is that of the first such row.
   */
  function FindAllIn(orders: seq<OrderRow>, rows: seq<ItemRow>): (r: Result<seq<Order>, RepositoryError>)
    ensures r.Success? <==> forall k :: 0 <= k < |orders| ==> Rebuild(orders[k].id, orders[k], rows).Success?
    ensures r.Failure? ==> exists k :: 0 <= k < |orders| && Rebuild(orders[k].id, orders[k], rows) == Failure(r.error)
    ensures r.Success? ==> |r.value| == |orders|
    ensures r.Success? ==> forall k :: 0 <= k < |orders| ==> Rebuild(orders[k].id, orders[k], rows) == Success(r.value[k])
    decreases |orders|
  {
    if orders == [] then Success([])
    else
      match Rebuild(orders[0].id, orders[0], rows)
      case Failure(e) => Failure(e)
      case Success(o) =>
        match FindAllIn(orders[1..], rows)
        case Failure(e) => Failure(e)
        case Success(os) => Success([o] + os)
  }

  /** The error findAll reports is that of the first row that fails to rebuild. */
  lemma {:induction false} FindAllInFirstFailure(orders: seq<OrderRow>, rows: seq<ItemRow>)
    ensures FindAllIn(orders, rows).Failure? ==>
      exists k :: 0 <= k < |orders|
        && Rebuild(orders[k].id, orders[k], rows) == Failure(FindAllIn(orders, rows).error)
        && forall j :: 0 <= j < k ==> Rebuild(orders[j].id, orders[j], rows).Success?
    decreases |orders|
  {
    if orders != [] && FindAllIn(orders, rows).Failure? {
      var e := FindAllIn(orders, rows).error;
      if Rebuild(orders[0].id, orders[0], rows).Failure? {
        assert Rebuild(orders[0].id, orders[0], rows) == Failure(e);
      } else {
        var tail := orders[1..];
        FindAllInFirstFailure(tail, rows);
        var k :| 0 <= k < |tail|
          && Rebuild(tail[k].id, tail[k], rows) == Failure(e)
          && forall j :: 0 <= j < k ==> Rebuild(tail[j].id, tail[j], rows).Success?;
        assert forall j :: 0 <= j < k + 1 ==> Rebuild(orders[j].id, orders[j], rows).Success? by {
          forall j | 0 <= j < k + 1
            ensures Rebuild(orders[j].id, orders[j], rows).Success?
          {
            if j > 0 {
              assert orders[j] == tail[j - 1];
            }
          }
        }
        assert orders[k + 1] == tail[k];
      }
    }
  }

  // The store invariant

  predicate UniqueOrderIds(orders: seq<OrderRow>) {
    forall i, j :: 0 <= i < j < |orders| ==> orders[i].id != orders[j].id
  }

  predicate UniqueItemIds(rows: seq<ItemRow>) {
    forall i, j :: 0 <= i < j < |rows| ==> rows[i].id != rows[j].id
  }

  /** Lines whose ids are pairwise distinct and not yet used by any row of the table. */
  predicate NewItemIdsFree(rows: seq<ItemRow>, items: seq<OrderItem>) {
    && (forall i, j :: 0 <= i < j < |items| ==> items[i].id != items[j].id)
    && (forall i :: 0 <= i < |items| ==> items[i].id !in ItemIds(rows))
  }

  /** An order row whose child rows rebuild a valid order with the stored total. */
  predicate Reconstructs(row: OrderRow, rows: seq<ItemRow>) {
    var lines := ToItems(ItemsOf(rows, row.id));
    WellFormed(OrderData(row.id, row.customerId, lines)) && row.total == Total(lines)
  }

  /**
   * The state the repository keeps: primary keys are unique in both tables,
   * every child row belongs to a stored order (no orphans), and every order
   * row rebuilds into the order that was written.
   */
  predicate StoreValid(orders: seq<OrderRow>, rows: seq<ItemRow>) {
    && UniqueOrderIds(orders)
    && UniqueItemIds(rows)
    && (forall x :: x in rows ==> x.orderId in OrderIds(orders))
    && (forall row :: row in orders ==> Reconstructs(row, rows))
  }

  // Lemmas about the child-row queries

  lemma {:induction false} ItemsOfAppend(a: seq<ItemRow>, b: seq<ItemRow>, id: string)
    ensures ItemsOf(a + b, id) == ItemsOf(a, id) + ItemsOf(b, id)
    decreases |a|
  {
    if a == [] {
      assert a + b == b;
    } else {
      assert (a + b)[0] == a[0];
      assert (a + b)[1..] == a[1..] + b;
      ItemsOfAppend(a[1..], b, id);
    }
  }

  lemma {:induction false} ItemsOfNone(rows: seq<ItemRow>, id: string)
    requires forall x :: x in rows ==> x.orderId != id
    ensures ItemsOf(rows, id) == []
    decreases |rows|
  {
    if rows != [] {
      assert rows[0] in rows;
      ItemsOfNone(rows[1..], id);
    }
  }

  lemma {:induction false} ItemsOfAll(rows: seq<ItemRow>, id: string)
    requires forall x :: x in rows ==> x.orderId == id
    ensures ItemsOf(rows, id) == rows
    decreases |rows|
  {
    if rows != [] {
      assert rows[0] in rows;
      ItemsOfAll(rows[1..], id);
      assert [rows[0]] + rows[1..] == rows;
    }
  }

  /** Deleting one order's child rows leaves every other order's child rows as they were. */
  lemma {:induction false} ItemsOfDelete(rows: seq<ItemRow>, id: string, other: string)
    requires other != id
    ensures ItemsOf(DeleteItemsOf(rows, id), other) == ItemsOf(rows, other)
    decreases |rows|
  {
    if rows != [] {
      ItemsOfDelete(rows[1..], id, other);
      var head := if rows[0].orderId != id then [rows[0]] else [];
      ItemsOfAppend(head, DeleteItemsOf(rows[1..], id), other);
      if rows[0].orderId == id {
        assert ItemsOf(head, other) == [];
      } else {
        assert head[1..] == [];
      }
    }
  }

  /** Deleting an order's child rows from a table that holds only that order's rows empties it. */
  lemma {:induction false} DeleteOnlyOrder(rows: seq<ItemRow>, id: string)
    requires forall x :: x in rows ==> x.orderId == id
    ensures DeleteItemsOf(rows, id) == []
    decreases |rows|
  {
    if rows != [] {
      assert rows[0] in rows;
      DeleteOnlyOrder(rows[1..], id);
    }
  }

  /**
   * Writing an order's child rows after a table that holds none of its rows:
   * its child rows are exactly the new lines, in order, and every other
   * order's child rows are those of the table before.
   */
  lemma WrittenItems(base: seq<ItemRow>, o: Order)
    requires forall x :: x in base ==> x.orderId != o.id
    ensures ItemsOf(base + ToRows(o.items, o.id), o.id) == ToRows(o.items, o.id)
    ensures forall n :: n != o.id ==> ItemsOf(base + ToRows(o.items, o.id), n) == ItemsOf(base, n)
  {
    var written := ToRows(o.items, o.id);
    ItemsOfAppend(base, written, o.id);
    ItemsOfNone(base, o.id);
    ItemsOfAll(written, o.id);
    forall n | n != o.id
      ensures ItemsOf(base + written, n) == ItemsOf(base, n)
    {
      ItemsOfAppend(base, written, n);
      ItemsOfNone(written, n);
    }
  }

  // Lemmas about primary keys

  lemma UniqueItemIdsAppend(a: seq<ItemRow>, b: seq<ItemRow>)
    requires UniqueItemIds(a) && UniqueItemIds(b)
    requires forall x, y :: x in a && y in b ==> x.id != y.id
    ensures UniqueItemIds(a + b)
  {
    forall i, j | 0 <= i < j < |a + b|
      ensures (a + b)[i].id != (a + b)[j].id
    {
      if i < |a| && j >= |a| {
        assert a[i] in a;
        assert b[j - |a|] in b;
      }
    }
  }

  lemma {:induction false} UniqueItemIdsDelete(rows: seq<ItemRow>, id: string)
    requires UniqueItemIds(rows)
    ensures UniqueItemIds(DeleteItemsOf(rows, id))
    decreases |rows|
  {
    if rows != [] {
      UniqueItemIdsDelete(rows[1..], id);
      var rest := DeleteItemsOf(rows[1..], id);
      if rows[0].orderId != id {
        forall x, y | x in [rows[0]] && y in rest
          ensures x.id != y.id
        {
          var j :| 0 <= j < |rows[1..]| && rows[1..][j] == y;
          assert rows[j + 1] == y;
        }
        UniqueItemIdsAppend([rows[0]], rest);
      } else {
        assert [] + rest == rest;
      }
    }
  }

  /** Fresh, pairwise distinct line ids keep the item table's keys unique once written. */
  lemma UniqueAfterWrite(base: seq<ItemRow>, items: seq<OrderItem>, id: string)
    requires UniqueItemIds(base)
    requires NewItemIdsFree(base, items)
    ensures UniqueItemIds(base + ToRows(items, id))
  {
    var written := ToRows(items, id);
    forall x, y | x in base && y in written
      ensures x.id != y.id
    {
      var i :| 0 <= i < |written| && written[i] == y;
      assert y.id == items[i].id;
      assert x.id in ItemIds(base);
    }
    UniqueItemIdsAppend(base, written);
  }

  /** Looking up an id held by exactly one order row finds that row. */
  lemma RowIndexAt(orders: seq<OrderRow>, i: nat, id: string)
    requires i < |orders| && orders[i].id == id
    requires forall j :: 0 <= j < |orders| && j != i ==> orders[j].id != id
    ensures RowIndex(orders, id) == Some(i)
  {
    assert orders[i] in orders;
  }

  /** Among unique order ids, an id held at position i is held nowhere else. */
  lemma UniqueElsewhere(orders: seq<OrderRow>, i: nat)
    requires UniqueOrderIds(orders) && i < |orders|
    ensures forall j :: 0 <= j < |orders| && j != i ==> orders[j].id != orders[i].id
  {
    forall j | 0 <= j < |orders| && j != i
      ensures orders[j].id != orders[i].id
    {
      if j < i {
        assert orders[j].id != orders[i].id;
      } else {
        assert orders[i].id != orders[j].id;
      }
    }
  }

  /** Appending a row adds its id to the table's ids. */
  lemma AppendRowIds(orders: seq<OrderRow>, p: OrderRow)
    ensures OrderIds(orders + [p]) == OrderIds(orders) + {p.id}
  {
    assert forall r :: r in orders + [p] <==> r in orders || r == p;
  }

  /** Overwriting a row with one of the same id leaves the table's ids, and their uniqueness, as they were. */
  lemma OverwriteRowIds(orders: seq<OrderRow>, k: nat, p: OrderRow)
    requires k < |orders| && p.id == orders[k].id
    ensures OrderIds(orders[k := p]) == OrderIds(orders)
    ensures UniqueOrderIds(orders) ==> UniqueOrderIds(orders[k := p])
  {
    var orders' := orders[k := p];
    assert forall i :: 0 <= i < |orders| ==> orders'[i].id == orders[i].id;
    forall n | n in OrderIds(orders)
      ensures n in OrderIds(orders')
    {
      var r :| r in orders && r.id == n;
      var i :| 0 <= i < |orders| && orders[i] == r;
      assert orders'[i] in orders';
    }
    forall n | n in OrderIds(orders')
      ensures n in OrderIds(orders)
    {
      var r :| r in orders' && r.id == n;
      var i :| 0 <= i < |orders'| && orders'[i] == r;
      assert orders[i] in orders;
    }
  }

  /**
   * Writing one order's parent row and its child rows keeps the store valid.
   * Before the write, base is the item table without any row of that order;
   * the order table afterwards holds the same rows except that the order's
   * own row is its parent row.
   */
  lemma WriteKeepsStoreValid(orders: seq<OrderRow>, rows: seq<ItemRow>, orders': seq<OrderRow>, base: seq<ItemRow>, o: Order)
    requires StoreValid(orders, rows)
    requires UniqueOrderIds(orders')
    requires OrderIds(orders') == OrderIds(orders) + {o.id}
    requires forall r :: r in orders' ==> if r.id == o.id then r == ParentRow(o) else r in orders
    requires UniqueItemIds(base)
    requires forall x :: x in base ==> x in rows && x.orderId != o.id
    requires forall n :: n != o.id ==> ItemsOf(base, n) == ItemsOf(rows, n)
    requires NewItemIdsFree(base, o.items)
    ensures StoreValid(orders', base + ToRows(o.items, o.id))
  {
    var rows' := base + ToRows(o.items, o.id);
    UniqueAfterWrite(base, o.items, o.id);
    WrittenItems(base, o);
    forall x | x in rows'
      ensures x.orderId in OrderIds(orders')
    {
      if x in base {
        assert x in rows;
      }
    }
    forall r | r in orders'
      ensures Reconstructs(r, rows')
    {
      if r.id == o.id {
        ToItemsToRows(o.items, o.id);
      } else {
        assert r in orders;
        assert Reconstructs(r, rows);
      }
    }
  }

  // The repository operations on the tables

  /** No child row refers to an order id that is not stored. */
  lemma NoRowsOfUnknownOrder(orders: seq<OrderRow>, rows: seq<ItemRow>, id: string)
    requires StoreValid(orders, rows)
    requires id !in OrderIds(orders)
    ensures forall x :: x in rows ==> x.orderId != id
  {
  }

  /** create(order): the tables after one parent row and the order's child rows are inserted. */
  lemma CreateKeepsStoreValid(orders: seq<OrderRow>, rows: seq<ItemRow>, o: Order)
    requires StoreValid(orders, rows)
    requires o.id !in OrderIds(orders)
    requires NewItemIdsFree(rows, o.items)
    ensures StoreValid(orders + [ParentRow(o)], rows + ToRows(o.items, o.id))
  {
    var orders' := orders + [ParentRow(o)];
    AppendRowIds(orders, ParentRow(o));
    forall i, j | 0 <= i < j < |orders'|
      ensures orders'[i].id != orders'[j].id
    {
      if j == |orders| {
        assert orders[i] in orders;
      }
    }
    NoRowsOfUnknownOrder(orders, rows, o.id);
    WriteKeepsStoreValid(orders, rows, orders', rows, o);
  }

  /** update(order), once its order row is found at position k. */
  lemma UpdateKeepsStoreValid(orders: seq<OrderRow>, rows: seq<ItemRow>, k: nat, o: Order)
    requires StoreValid(orders, rows)
    requires k < |orders| && orders[k].id == o.id
    requires NewItemIdsFree(DeleteItemsOf(rows, o.id), o.items)
    ensures StoreValid(orders[k := ParentRow(o)], DeleteItemsOf(rows, o.id) + ToRows(o.items, o.id))
  {
    var orders' := orders[k := ParentRow(o)];
    var base := DeleteItemsOf(rows, o.id);
    OverwriteRowIds(orders, k, ParentRow(o));
    UniqueElsewhere(orders, k);
    assert orders[k] in orders;
    forall r | r in orders'
      ensures if r.id == o.id then r == ParentRow(o) else r in orders
    {
      var i :| 0 <= i < |orders'| && orders'[i] == r;
      if i != k {
        assert orders[i] in orders;
      }
    }
    UniqueItemIdsDelete(rows, o.id);
    forall n | n != o.id
      ensures ItemsOf(base, n) == ItemsOf(rows, n)
    {
      ItemsOfDelete(rows, o.id, n);
    }
    WriteKeepsStoreValid(orders, rows, orders', base, o);
  }

  /** find(id) reads only the row holding id and that order's child rows. */
  lemma SameRowSameFind(orders: seq<OrderRow>, rows: seq<ItemRow>, orders': seq<OrderRow>, rows': seq<ItemRow>, id: string)
    requires RowIndex(orders', id) == RowIndex(orders, id)
    requires RowIndex(orders, id).Some? ==> orders'[RowIndex(orders, id).value] == orders[RowIndex(orders, id).value]
    requires ItemsOf(rows', id) == ItemsOf(rows, id)
    ensures FindIn(orders', rows', id) == FindIn(orders, rows, id)
  {
  }

  /** After create, finding the new order's id returns the order that was written. */
  lemma CreateThenFind(orders: seq<OrderRow>, rows: seq<ItemRow>, o: Order)
    requires StoreValid(orders, rows)
    requires o.id !in OrderIds(orders)
    ensures FindIn(orders + [ParentRow(o)], rows + ToRows(o.items, o.id), o.id) == Success(o)
  {
    var orders' := orders + [ParentRow(o)];
    forall j | 0 <= j < |orders'| && j != |orders|
      ensures orders'[j].id != o.id
    {
      assert orders[j] in orders;
    }
    RowIndexAt(orders', |orders|, o.id);
    NoRowsOfUnknownOrder(orders, rows, o.id);
    WrittenItems(rows, o);
    ToItemsToRows(o.items, o.id);
  }

  /** create leaves what find returns for every other id unchanged. */
  lemma CreateKeepsOthers(orders: seq<OrderRow>, rows: seq<ItemRow>, o: Order, id: string)
    requires StoreValid(orders, rows)
    requires o.id !in OrderIds(orders)
    requires id != o.id
    ensures FindIn(orders + [ParentRow(o)], rows + ToRows(o.items, o.id), id) == FindIn(orders, rows, id)
  {
    var orders', rows' := orders + [ParentRow(o)], rows + ToRows(o.items, o.id);
    assert ItemsOf(rows', id) == ItemsOf(rows, id) by {
      NoRowsOfUnknownOrder(orders, rows, o.id);
      WrittenItems(rows, o);
    }
    AppendKeepsRowIndex(orders, ParentRow(o), id);
    SameRowSameFind(orders, rows, orders', rows', id);
  }

  /** Appending a row with another id leaves where an id is found unchanged. */
  lemma AppendKeepsRowIndex(orders: seq<OrderRow>, p: OrderRow, id: string)
    requires UniqueOrderIds(orders) && p.id != id
    ensures RowIndex(orders + [p], id) == RowIndex(orders, id)
  {
    AppendRowIds(orders, p);
    if id in OrderIds(orders) {
      var k := RowIndex(orders, id).value;
      UniqueElsewhere(orders, k);
      RowIndexAt(orders + [p], k, id);
    }
  }

  /**
   * After update, finding the order returns the new aggregate: its child
   * rows are exactly the new lines, with nothing left of the old ones.
   */
  lemma UpdateThenFind(orders: seq<OrderRow>, rows: seq<ItemRow>, k: nat, o: Order)
    requires StoreValid(orders, rows)
    requires k < |orders| && orders[k].id == o.id
    ensures ItemsOf(DeleteItemsOf(rows, o.id) + ToRows(o.items, o.id), o.id) == ToRows(o.items, o.id)
    ensures FindIn(orders[k := ParentRow(o)], DeleteItemsOf(rows, o.id) + ToRows(o.items, o.id), o.id) == Success(o)
  {
    var orders' := orders[k := ParentRow(o)];
    WrittenItems(DeleteItemsOf(rows, o.id), o);
    ToItemsToRows(o.items, o.id);
    UniqueElsewhere(orders, k);
    RowIndexAt(orders', k, o.id);
  }

  /** update deletes and writes only the updated order's child rows: every other order reads back as before. */
  lemma UpdateKeepsOthers(orders: seq<OrderRow>, rows: seq<ItemRow>, k: nat, o: Order, id: string)
    requires StoreValid(orders, rows)
    requires k < |orders| && orders[k].id == o.id
    requires id != o.id
    ensures FindIn(orders[k := ParentRow(o)], DeleteItemsOf(rows, o.id) + ToRows(o.items, o.id), id) == FindIn(orders, rows, id)
  {
    var orders' := orders[k := ParentRow(o)];
    WrittenItems(DeleteItemsOf(rows, o.id), o);
    ItemsOfDelete(rows, o.id, id);
    OverwriteRowIds(orders, k, ParentRow(o));
    if id in OrderIds(orders) {
      var j := RowIndex(orders, id).value;
      UniqueElsewhere(orders, j);
      RowIndexAt(orders', j, id);
    }
  }

  /** In a valid store, find succeeds exactly for the stored ids, and the stored total is the order's total. */
  lemma FindInValidStore(orders: seq<OrderRow>, rows: seq<ItemRow>, id: string)
    requires StoreValid(orders, rows)
    ensures FindIn(orders, rows, id).Success? <==> id in OrderIds(orders)
    ensures FindIn(orders, rows, id).Success? ==>
      var k := RowIndex(orders, id).value;
      FindIn(orders, rows, id).value.customerId == orders[k].customerId
      && Total(FindIn(orders, rows, id).value.items) == orders[k].total
  {
    if id in OrderIds(orders) {
      var k := RowIndex(orders, id).value;
      assert orders[k] in orders;
      assert Reconstructs(orders[k], rows);
    }
  }

  /** In a valid store, findAll returns exactly one order per order row, each with its own child rows. */
  lemma {:induction false} FindAllInValidStore(orders: seq<OrderRow>, rows: seq<ItemRow>)
    requires forall row :: row in orders ==> Reconstructs(row, rows)
    ensures FindAllIn(orders, rows).Success?
    ensures |FindAllIn(orders, rows).value| == |orders|
    ensures forall k :: 0 <= k < |orders| ==>
      var o := FindAllIn(orders, rows).value[k];
      o.id == orders[k].id && o.customerId == orders[k].customerId
      && o.items == ToItems(ItemsOf(rows, orders[k].id)) && Total(o.items) == orders[k].total
    decreases |orders|
  {
    if orders != [] {
      assert orders[0] in orders;
      FindAllInValidStore(orders[1..], rows);
      forall k | 0 <= k < |orders|
        ensures Reconstructs(orders[k], rows)
      {
        assert orders[k] in orders;
      }
    }
  }

  /**
   * An order's child rows, with other orders' rows before and after them,
   * rebuild exactly that order.
   */
  lemma RebuildAmong(before: seq<ItemRow>, o: Order, after: seq<ItemRow>)
    requires forall x :: x in before ==> x.orderId != o.id
    requires forall x :: x in after ==> x.orderId != o.id
    ensures Rebuild(o.id, ParentRow(o), before + ToRows(o.items, o.id) + after) == Success(o)
  {
    var written := ToRows(o.items, o.id);
    ItemsOfAppend(before + written, after, o.id);
    WrittenItems(before, o);
    ItemsOfNone(after, o.id);
    assert written + [] == written;
    ToItemsToRows(o.items, o.id);
  }

  /**
   * Two orders created one after the other in an empty store are listed by
   * findAll as exactly those two orders, in creation order.
   */
  lemma CreateTwoThenFindAll(o1: Order, o2: Order)
    requires o1.id != o2.id
    ensures FindAllIn([ParentRow(o1), ParentRow(o2)], ToRows(o1.items, o1.id) + ToRows(o2.items, o2.id)) == Success([o1, o2])
  {
    var rows1, rows2 := ToRows(o1.items, o1.id), ToRows(o2.items, o2.id);
    var orders, rows, os := [ParentRow(o1), ParentRow(o2)], rows1 + rows2, [o1, o2];
    RebuildBoth(o1, o2);
    assert forall k :: 0 <= k < |orders| ==> Rebuild(orders[k].id, orders[k], rows) == Success(os[k]);
    FindAllInOfRebuilt(orders, rows, os);
  }

  /** Each of two orders with different ids is rebuilt from the child rows of both. */
  lemma RebuildBoth(o1: Order, o2: Order)
    requires o1.id != o2.id
    ensures Rebuild(o1.id, ParentRow(o1), ToRows(o1.items, o1.id) + ToRows(o2.items, o2.id)) == Success(o1)
    ensures Rebuild(o2.id, ParentRow(o2), ToRows(o1.items, o1.id) + ToRows(o2.items, o2.id)) == Success(o2)
  {
    var rows1, rows2 := ToRows(o1.items, o1.id), ToRows(o2.items, o2.id);
    assert Rebuild(o1.id, ParentRow(o1), rows1 + rows2) == Success(o1) by {
      RowsOfOrder(o2.items, o2.id);
      RebuildAmong([], o1, rows2);
      assert [] + rows1 + rows2 == rows1 + rows2;
    }
    assert Rebuild(o2.id, ParentRow(o2), rows1 + rows2) == Success(o2) by {
      RowsOfOrder(o1.items, o1.id);
      RebuildAmong(rows1, o2, []);
      assert rows1 + rows2 + [] == rows1 + rows2;
    }
  }

  /** When every order row rebuilds into the matching order of os, findAll gives exactly os. */
  lemma FindAllInOfRebuilt(orders: seq<OrderRow>, rows: seq<ItemRow>, os: seq<Order>)
    requires |os| == |orders|
    requires forall k :: 0 <= k < |orders| ==> Rebuild(orders[k].id, orders[k], rows) == Success(os[k])
    ensures FindAllIn(orders, rows) == Success(os)
  {
    var r := FindAllIn(orders, rows);
    assert r.Success?;
    assert r.value == os;
  }

  /** Every child row written for order orderId points at that order. */
  lemma RowsOfOrder(items: seq<OrderItem>, orderId: string)
    ensures forall x :: x in ToRows(items, orderId) ==> x.orderId == orderId
  {
  }

  /** A stored order left without child rows surfaces as the Order constructor's own validation error. */
  lemma OrderWithoutItemsFailsValidation(rows: seq<ItemRow>, row: OrderRow)
    requires row.id != "" && row.customerId != ""
    requires forall x :: x in rows ==> x.orderId != row.id
    ensures FindIn([row], rows, row.id) == Failure(Invalid(ItemsRequired))
  {
    ItemsOfNone(rows, row.id);
    assert [row][0] in [row];
  }

  /**
   * The repository: the two tables, modified in place by create and
   * update, and read by find and findAll.
   */
  class OrderRepository {
    var orders: seq<OrderRow>
    var items: seq<ItemRow>

    ghost predicate Valid()
      reads this
    {
      StoreValid(orders, items)
    }

    /** An empty store. */
    constructor ()
      ensures Valid() && orders == [] && items == []
    {
      orders := [];
      items := [];
    }

    /**
     * create(order): inserts the parent row, whose total is the order's
     * total, and one child row per line pointing at the order. The store
     * rejects a taken order id or a taken or repeated line id; those are
     * the caller's obligations here.
     */
    method Create(entity: Order)
      requires Valid()
      requires entity.id !in OrderIds(orders)
      requires NewItemIdsFree(items, entity.items)
      modifies this
      ensures Valid()
      ensures orders == old(orders) + [ParentRow(entity)]
      ensures items == old(items) + ToRows(entity.items, entity.id)
    {
      CreateKeepsStoreValid(orders, items, entity);
      orders := orders + [ParentRow(entity)];
      items := items + ToRows(entity.items, entity.id);
    }

    /**
     * update(order): finds the order row (NotFound, with nothing changed,
     * when there is none), overwrites its customer id and total, deletes
     * every child row of that order, then inserts one child row per new
     * line. The new line ids must not be taken by another order's rows.
     */
    method Update(entity: Order) returns (r: Outcome<RepositoryError>)
      requires Valid()
      requires entity.id in OrderIds(orders) ==> NewItemIdsFree(DeleteItemsOf(items, entity.id), entity.items)
      modifies this
      ensures Valid()
      ensures r.Fail? <==> entity.id !in OrderIds(old(orders))
      ensures r.Fail? ==> r.error == NotFound(entity.id) && orders == old(orders) && items == old(items)
      ensures r.Pass? ==> orders == old(orders)[RowIndex(old(orders), entity.id).value := ParentRow(entity)]
      ensures r.Pass? ==> items == DeleteItemsOf(old(items), entity.id) + ToRows(entity.items, entity.id)
    {
      var found := RowIndex(orders, entity.id);
      if found.None? {
        return Fail(NotFound(entity.id));
      }
      var k := found.value;
      UpdateKeepsStoreValid(orders, items, k, entity);
      orders := orders[k := ParentRow(entity)];
      items := DeleteItemsOf(items, entity.id);
      items := items + ToRows(entity.items, entity.id);
      r := Pass;
    }

    /** find(id): NotFound for an unknown id, else the stored order rebuilt. */
    function Find(id: string): (r: Result<Order, RepositoryError>)
      reads this
      requires Valid()
      ensures r.Success? <==> id in OrderIds(orders)
      ensures r.Failure? ==> r.error == NotFound(id)
      ensures r.Success? ==> r.value.id == id && r.value.items == ToItems(ItemsOf(items, id))
    {
      FindInValidStore(orders, items, id);
      FindIn(orders, items, id)
    }

    /** findAll(): one order per stored order row, in table order. */
    function FindAll(): (r: seq<Order>)
      reads this
      requires Valid()
      ensures |r| == |orders|
      ensures forall k :: 0 <= k < |orders| ==> r[k].id == orders[k].id && r[k].items == ToItems(ItemsOf(items, orders[k].id))
    {
      FindAllInValidStore(orders, items);
      FindAllIn(orders, items).value
    }
  }

  /** A new store after creating o. */
  method CreateOne(o: Order) returns (repo: OrderRepository)
    requires NewItemIdsFree([], o.items)
    ensures fresh(repo) && repo.Valid()
    ensures repo.orders == [ParentRow(o)] && repo.items == ToRows(o.items, o.id)
  {
    repo := new OrderRepository();
    repo.Create(o);
    assert [] + [ParentRow(o)] == [ParentRow(o)];
    assert [] + ToRows(o.items, o.id) == ToRows(o.items, o.id);
  }

  /** Create an order, update it with new quantities, and read it back, as a caller sees the repository. */
  method UpdateScenario() {
    var order: Order := OrderData("123", "123", [OrderItem("1", "Product 1", 10, "123", 2)]);
    var newOrder: Order := OrderData("123", "123", [OrderItem("1", "Product 1", 10, "123", 10)]);
    var repo := CreateOne(order);
    var before, beforeItems := repo.orders, repo.items;
    assert NewItemIdsFree(DeleteItemsOf(beforeItems, "123"), newOrder.items) by {
      RowsOfOrder(order.items, "123");
      DeleteOnlyOrder(beforeItems, "123");
    }
    var r := repo.Update(newOrder);
    assert r == Pass && RowIndex(before, "123") == Some(0);
    assert |repo.orders| == 1 && repo.orders[0].total == 100 by {
      TotalOfOneLine(newOrder.items[0]);
    }
    assert repo.Find("123") == Success(newOrder) by {
      UpdateThenFind(before, beforeItems, 0, newOrder);
    }
  }

  /** Create an order and read it back. */
  method CreateScenario() {
    var repo := new OrderRepository();
    var order: Order := OrderData("123", "123", [OrderItem("1", "Product 1", 10, "123", 2)]);
    repo.Create(order);
    CreateThenFind([], [], order);
    assert repo.Find("123") == Success(order);
    TotalOfOneLine(order.items[0]);
    assert repo.orders[0].total == 20;
  }

  /**
   * Update an order that was never created, whose line id is already taken
   * by a stored order: it fails as not found and writes nothing.
   */
  method UnknownUpdateScenario() {
    var a: Order := OrderData("A", "c", [OrderItem("1", "Product 1", 10, "p", 2)]);
    var b: Order := OrderData("B", "c", [OrderItem("1", "Product 1", 10, "p", 3)]);
    var repo := CreateOne(a);
    var before, beforeItems := repo.orders, repo.items;
    assert "B" !in OrderIds(repo.orders);
    var r := repo.Update(b);
    assert r == Fail(NotFound("B"));
    assert repo.orders == before && repo.items == beforeItems;
  }

  /** A new store after creating o1 and then o2. */
  method CreateTwo(o1: Order, o2: Order) returns (repo: OrderRepository)
    requires o1.id != o2.id
    requires NewItemIdsFree([], o1.items) && NewItemIdsFree(ToRows(o1.items, o1.id), o2.items)
    ensures fresh(repo) && repo.Valid()
    ensures repo.orders == [ParentRow(o1), ParentRow(o2)]
    ensures repo.items == ToRows(o1.items, o1.id) + ToRows(o2.items, o2.id)
  {
    repo := new OrderRepository();
    repo.Create(o1);
    assert repo.orders == [ParentRow(o1)] && repo.items == ToRows(o1.items, o1.id);
    assert o2.id !in OrderIds(repo.orders) by {
      AppendRowIds([], ParentRow(o1));
    }
    repo.Create(o2);
  }

  /**
   * Create two orders with different ids and list them: findAll gives
   * exactly those two orders, in creation order.
   */
  method FindAllScenario(o1: Order, o2: Order)
    requires o1.id != o2.id
    requires NewItemIdsFree([], o1.items) && NewItemIdsFree(ToRows(o1.items, o1.id), o2.items)
  {
    var repo := CreateTwo(o1, o2);
    CreateTwoThenFindAll(o1, o2);
    var all := repo.FindAll();
    assert all == [o1, o2];
  }
}
