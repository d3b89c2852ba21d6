/**
  The database session of the order service as a mutable store, with the
  endpoints of main.py that change it as methods. Every `commit` of the
  source is a point where the fields below hold the committed state; the
  message log is what `send_kafka_message` has published, in order.
  Callers are taken to be authenticated already.
*/
module OrderStore {
  import opened Wrappers
  import opened Orders
  import N = Notifications

  /** The body `delete_order` answers with (main.py:235). */
  const DeletedReply: string := "Order deleted"

  class Store {
    var products: Inventory
    var orders: seq<Order>
    var details: seq<OrderDetail>
    var log: seq<string>

    /** The primary keys of both tables are unique and their rows in id order. */
    ghost predicate Valid()
      reads this
    {
      IdsAscending(orders) && DetailIdsAscending(details)
    }

    /** A store over an existing product table, with no orders yet. */
    constructor (seed: Inventory)
      ensures Valid()
      ensures products == seed && orders == [] && details == [] && log == []
    {
      products := seed;
      orders := [];
      details := [];
      log := [];
    }

    /**
      `create_order` (main.py:179-201). The pending header is committed first;
      then the lines are checked and committed one by one as `FulfilLines`
      describes; the "created" message follows only when every line passed.
      When a line fails, the header and the lines before it stay committed.
    */
    method CreateOrder(customerName: string, totalAmount: Amount, lines: seq<LineRequest>) returns (r: Result<OrderView>)
      requires Valid()
      modifies this
      ensures Valid()
      ensures var id := NextOrderId(old(orders));
              var run := FulfilLines(old(products), lines, id, NextDetailId(old(details)));
              && orders == old(orders) + [Order(id, customerName, totalAmount, Pending)]
              && products == run.stock
              && details == old(details) + run.added
              && (run.failure.None? ==>
                    && r == Ok(OrderView(Order(id, customerName, totalAmount, Pending), DetailsOf(old(details), id) + run.added))
                    && r == ReadOrder(orders, details, id)
                    && log == old(log) + [N.Text(N.OrderCreated(id))])
              && (run.failure.Some? ==> r == Err(run.failure.value) && log == old(log))
    {
      var id := NextOrderId(orders);
      var header := Order(id, customerName, totalAmount, Pending);
      AppendNextOrder(orders, header);
      orders := orders + [header];
      ghost var before := details;
      var failure := CommitLines(id, lines);
      if failure.Some? {
        r := Err(failure.value);
        return;
      }
      ghost var run := FulfilLines(old(products), lines, id, NextDetailId(before));
      LinesRows(old(products), lines, id, NextDetailId(before));
      DetailsOfOwnRows(run.added, id);
      DetailsOfAppend(before, run.added, id);
      log := log + [N.Text(N.OrderCreated(id))];
      r := Ok(View(header, details));
    }

    /**
      The line loop of `create_order` (main.py:185-196): for each line in
      turn, look the product up, compare with its current stock, take the
      quantity and commit a detail row of order `id`; stop at the first line
      that fails, keeping what was committed before it.
    */
    method CommitLines(id: nat, lines: seq<LineRequest>) returns (failure: Option<Error>)
      requires Valid()
      modifies this`products, this`details
      ensures Valid()
      ensures var run := FulfilLines(old(products), lines, id, NextDetailId(old(details)));
              && products == run.stock
              && details == old(details) + run.added
              && failure == run.failure
      ensures orders == old(orders) && log == old(log)
    {
      ghost var start, d0 := products, NextDetailId(details);
      ghost var added: seq<OrderDetail> := [];
      var stock, table := products, details;
      assert lines[..0] == [];
      var i := 0;
      while i < |lines|
        invariant 0 <= i <= |lines|
        invariant products == stock && details == table
        invariant table == old(details) + added && DetailIdsAscending(table)
        invariant NextDetailId(table) == d0 + i
        invariant FulfilLines(start, lines[..i], id, d0) == LinesOutcome(stock, added, None)
      {
        var line := lines[i];
        if line.productId !in stock {
          PrefixFails(start, lines, i, id, d0, stock, added);
          return Some(ProductNotFound(line.productId));
        }
        if stock[line.productId].quantity < line.quantity {
          PrefixFails(start, lines, i, id, d0, stock, added);
          return Some(NotEnoughQuantity(line.productId));
        }
        PrefixPasses(start, lines, i, id, d0, stock, added);
        stock := Take(stock, line);
        var row := OrderDetail(NextDetailId(table), Some(id), line.productId, line.quantity);
        AppendNextDetail(table, row);
        table := table + [row];
        added := added + [row];
        // the commit of this line
        products, details := stock, table;
        i := i + 1;
      }
      assert lines[..i] == lines;
      return None;
    }

    /**
      `update_order` (main.py:216-225): overwrites the customer name and total
      of an existing order, keeps its id and status, and announces it. An
      absent id is a 404 that changes nothing.
    */
    method UpdateOrder(orderId: int, customerName: string, totalAmount: Amount) returns (r: Result<OrderView>)
      requires Valid()
      modifies this
      ensures Valid()
      ensures products == old(products) && details == old(details)
      ensures match IndexOf(old(orders), orderId)
              case None =>
                r == Err(OrderNotFound) && orders == old(orders) && log == old(log)
              case Some(k) =>
                && orders == old(orders)[k := old(orders)[k].(customerName := customerName, totalAmount := totalAmount)]
                && r.Ok? && r == ReadOrder(orders, details, orderId)
                && log == old(log) + [N.Text(N.OrderUpdated(old(orders)[k].id))]
    {
      var found := IndexOf(orders, orderId);
      if found.None? {
        r := Err(OrderNotFound);
        return;
      }
      var k := found.value;
      var updated := orders[k].(customerName := customerName, totalAmount := totalAmount);
      UpdatedOrderStays(orders, k, updated);
      orders := orders[k := updated];
      log := log + [N.Text(N.OrderUpdated(updated.id))];
      r := Ok(View(updated, details));
    }

    /**
      `delete_order` (main.py:228-235): removes an existing order and announces
      it. Stock taken by its lines is not given back; its detail rows stay,
      with their order reference cleared. An absent id is a 404 that changes
      nothing. Either way the id is not found afterwards.
    */
    method DeleteOrder(orderId: int) returns (r: Result<string>)
      requires Valid()
      modifies this
      ensures Valid()
      ensures products == old(products)
      ensures match IndexOf(old(orders), orderId)
              case None =>
                r == Err(OrderNotFound) && orders == old(orders) && details == old(details) && log == old(log)
              case Some(k) =>
                && orders == old(orders)[..k] + old(orders)[k + 1..]
                && details == Detach(old(details), orderId)
                && r == Ok(DeletedReply)
                && log == old(log) + [N.Text(N.OrderDeleted(old(orders)[k].id))]
      ensures ReadOrder(orders, details, orderId) == Err(OrderNotFound)
    {
      var found := IndexOf(orders, orderId);
      if found.None? {
        r := Err(OrderNotFound);
        return;
      }
      var k := found.value;
      var gone := orders[k];
      DeletedOrderIsGone(orders, k);
      orders := orders[..k] + orders[k + 1..];
      details := Detach(details, orderId);
      log := log + [N.Text(N.OrderDeleted(gone.id))];
      r := Ok(DeletedReply);
    }

    /**
      `create_order_detail` (main.py:239-245): appends one detail row with a
      fresh id under the given order id, with no check that the order or the
      product exists and no change to any stock, and announces the row.
    */
    method CreateOrderDetail(orderId: int, productId: int, quantity: int) returns (row: OrderDetail)
      requires Valid()
      modifies this
      ensures Valid()
      ensures row == OrderDetail(NextDetailId(old(details)), Some(orderId), productId, quantity)
      ensures details == old(details) + [row]
      ensures products == old(products) && orders == old(orders)
      ensures log == old(log) + [N.Text(N.DetailCreated(row.id))]
    {
      row := OrderDetail(NextDetailId(details), Some(orderId), productId, quantity);
      AppendNextDetail(details, row);
      details := details + [row];
      log := log + [N.Text(N.DetailCreated(row.id))];
    }
  }

  /**
    The delete scenario: one line of 2 units of product 1 against a stock of
    10 leaves 8; deleting the order leaves 8 and the order is not found.
  */
  method DeleteKeepsStock(item: Product)
    requires item.quantity == 10
  {
    var stock, lines := map[1 := item], [LineRequest(1, 2)];
    FulfilStep(stock, lines, 0, 1, 1);
    assert lines[0..] == lines && lines[1..] == [];
    assert FulfilLines(stock, lines, 1, 1) == LinesOutcome(Take(stock, lines[0]), [OrderDetail(1, Some(1), 1, 2)], None);

    var store := new Store(stock);
    var created := store.CreateOrder("Alice", 20.0, lines);
    assert created.Ok? && created.value.order.id == 1;
    assert store.products[1].quantity == 8;
    assert IndexOf(store.orders, 1) == Some(0);
    ghost var published := store.log;
    assert published == [N.Text(N.OrderCreated(1))];

    var deleted := store.DeleteOrder(1);
    assert deleted == Ok(DeletedReply);
    assert store.products[1].quantity == 8;
    assert ReadOrder(store.orders, store.details, 1) == Err(OrderNotFound);
    assert store.log == published + [N.Text(N.OrderDeleted(1))];
  }
}
