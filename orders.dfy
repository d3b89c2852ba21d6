/**
  Records and queries of the order service (main.py), and the specification
  of the loop at the heart of `create_order`.

  The ORM session is treated as plain in-memory tables: the order table is a
  sequence in ascending id order (the order SQLite returns rows of a table
  without ORDER BY), the order-detail table likewise, and the product table
  a map from product id to product. The mutating endpoints live in
  `OrderStore.Store`; this module holds what they are specified against.
*/
module Orders {
  import opened Wrappers

  /** The Float columns (`total_amount`, `price`): carried, never computed with. */
  type Amount = real

  /** The default of the `status` column (main.py:36). */
  const Pending: string := "pending"

  /** Defaults of the query parameters of `read_orders` (main.py:204). */
  const DefaultSkip: int := 0
  const DefaultLimit: int := 10

  datatype Product = Product(name: string, description: string, price: Amount, quantity: int)

  datatype Order = Order(id: nat, customerName: string, totalAmount: Amount, status: string)

  /**
    A row of `order_details`. `orderId` is None once the owning order has been
    deleted: the relationship has no delete cascade, so the ORM keeps the rows
    and clears their foreign key.
  */
  datatype OrderDetail = OrderDetail(id: nat, orderId: Option<int>, productId: int, quantity: int)

  /** One requested line of an order (`OrderDetailCreate`). */
  datatype LineRequest = LineRequest(productId: int, quantity: int)

  /** What an endpoint returns for an order: the header with its detail rows (`OrderResponse`). */
  datatype OrderView = OrderView(order: Order, details: seq<OrderDetail>)

  /**
    The HTTP errors of the service: ProductNotFound and OrderNotFound are its
    404 responses, NotEnoughQuantity its 400 response.
  */
  datatype Error =
    | ProductNotFound(productId: int)
    | NotEnoughQuantity(productId: int)
    | OrderNotFound

  datatype Result<+T> = Ok(value: T) | Err(error: Error)

  type Inventory = map<int, Product>

  // ---------------------------------------------------------------------------
  // Primary keys

  /** Order ids are positive and strictly ascending, hence unique. */
  predicate IdsAscending(orders: seq<Order>) {
    && (forall i :: 0 <= i < |orders| ==> orders[i].id >= 1)
    && (forall i, j :: 0 <= i < j < |orders| ==> orders[i].id < orders[j].id)
  }

  /** Detail ids are positive and strictly ascending, hence unique. */
  predicate DetailIdsAscending(details: seq<OrderDetail>) {
    && (forall i :: 0 <= i < |details| ==> details[i].id >= 1)
    && (forall i, j :: 0 <= i < j < |details| ==> details[i].id < details[j].id)
  }

  /**
    The id SQLite gives the next inserted order: one more than the largest id
    in the table, 1 for an empty table.
  */
  function NextOrderId(orders: seq<Order>): (id: nat)
    requires IdsAscending(orders)
    ensures id >= 1
    ensures forall i :: 0 <= i < |orders| ==> orders[i].id < id
  {
    if orders == [] then 1 else orders[|orders| - 1].id + 1
  }

  /** Likewise for the next detail row. */
  function NextDetailId(details: seq<OrderDetail>): (id: nat)
    requires DetailIdsAscending(details)
    ensures id >= 1
    ensures forall i :: 0 <= i < |details| ==> details[i].id < id
  {
    if details == [] then 1 else details[|details| - 1].id + 1
  }

  /** Appending a row with the next id keeps the ids ascending. */
  lemma AppendNextOrder(orders: seq<Order>, o: Order)
    requires IdsAscending(orders) && o.id == NextOrderId(orders)
    ensures IdsAscending(orders + [o])
    ensures IndexOf(orders + [o], o.id) == Some(|orders|)
  {
    var all := orders + [o];
    assert all[|orders|].id == o.id;
  }

  /** Appending a detail row with the next id keeps the ids ascending and moves the next id on. */
  lemma AppendNextDetail(details: seq<OrderDetail>, row: OrderDetail)
    requires DetailIdsAscending(details) && row.id == NextDetailId(details)
    ensures DetailIdsAscending(details + [row])
    ensures NextDetailId(details + [row]) == row.id + 1
  {
    var all := details + [row];
    assert all[|details|] == row;
    forall i | 0 <= i < |details| ensures all[i] == details[i] {
    }
  }

  // ---------------------------------------------------------------------------
  // Queries: read_order, read_orders, read_order_details

  /** Position of the first order with the given id: `filter(Order.id == id).first()`. */
  function IndexOf(orders: seq<Order>, id: int): (r: Option<nat>)
    ensures r.Some? ==> r.value < |orders| && orders[r.value].id == id
    ensures r.Some? ==> forall k :: 0 <= k < r.value ==> orders[k].id != id
    ensures r.None? ==> forall k :: 0 <= k < |orders| ==> orders[k].id != id
  {
    if orders == [] then None
    else if orders[0].id == id then Some(0)
    else
      match IndexOf(orders[1..], id)
      case None => None
      case Some(k) => Some(k + 1)
  }

  /** With unique ids, the order at position k is the one found by its id. */
  lemma IndexOfUnique(orders: seq<Order>, k: nat)
    requires IdsAscending(orders) && k < |orders|
    ensures IndexOf(orders, orders[k].id) == Some(k)
  {
    forall j | 0 <= j < |orders| && j != k ensures orders[j].id != orders[k].id {
    }
  }

  /**
    The detail rows that belong to an order, in table order: `read_order_details`
    (main.py:248-250), and the `order_details` relationship of an order.
  */
  function DetailsOf(details: seq<OrderDetail>, orderId: int): (r: seq<OrderDetail>)
    ensures forall d :: d in r <==> d in details && d.orderId == Some(orderId)
    ensures |r| <= |details|
  {
    if details == [] then []
    else
      (if details[0].orderId == Some(orderId) then [details[0]] else [])
      + DetailsOf(details[1..], orderId)
  }

  /** Filtering distributes over appending rows to the table. */
  lemma {:induction false} DetailsOfAppend(a: seq<OrderDetail>, b: seq<OrderDetail>, orderId: int)
    ensures DetailsOf(a + b, orderId) == DetailsOf(a, orderId) + DetailsOf(b, orderId)
  {
    if a == [] {
      assert a + b == b;
    } else {
      assert (a + b)[1..] == a[1..] + b;
      DetailsOfAppend(a[1..], b, orderId);
    }
  }

  /** Rows that all belong to one order are all found for it, in order. */
  lemma {:induction false} DetailsOfOwnRows(rows: seq<OrderDetail>, orderId: int)
    requires forall k :: 0 <= k < |rows| ==> rows[k].orderId == Some(orderId)
    ensures DetailsOf(rows, orderId) == rows
  {
    if rows != [] {
      DetailsOfOwnRows(rows[1..], orderId);
    }
  }

  /** An order as the endpoints return it, with its detail rows from the table. */
  function View(o: Order, details: seq<OrderDetail>): OrderView {
    OrderView(o, DetailsOf(details, o.id))
  }

  /** `read_order` (main.py:209-213). */
  function ReadOrder(orders: seq<Order>, details: seq<OrderDetail>, orderId: int): (r: Result<OrderView>)
    ensures r.Ok? ==> r.value.order in orders && r.value.order.id == orderId
    ensures r.Ok? ==> r.value.details == DetailsOf(details, orderId)
    ensures r.Err? <==> forall k :: 0 <= k < |orders| ==> orders[k].id != orderId
    ensures r.Err? ==> r.error == OrderNotFound
  {
    match IndexOf(orders, orderId)
    case None => Err(OrderNotFound)
    case Some(k) => Ok(View(orders[k], details))
  }

  /** SQLite's OFFSET: a negative offset counts as 0; offsets past the end leave nothing. */
  function PageStart(count: nat, skip: int): (start: nat)
    ensures start <= count
    ensures skip <= 0 ==> start == 0
    ensures 0 <= skip <= count ==> start == skip
    ensures skip >= count ==> start == count
  {
    if skip <= 0 then 0 else if skip >= count then count else skip
  }

  /** SQLite's LIMIT: a negative limit means no limit. */
  function PageEnd(count: nat, start: nat, limit: int): (end: nat)
    requires start <= count
    ensures start <= end <= count
    ensures limit < 0 ==> end == count
    ensures limit >= 0 ==> end == if start + limit <= count then start + limit else count
  {
    if limit < 0 || start + limit >= count then count else start + limit
  }

  /** `read_orders` (main.py:204-206): `offset(skip).limit(limit)` over the order table. */
  function ReadOrders(orders: seq<Order>, details: seq<OrderDetail>, skip: int, limit: int): (r: seq<OrderView>)
    ensures limit >= 0 ==> |r| <= limit
    ensures skip >= |orders| ==> r == []
    ensures skip <= 0 && limit < 0 ==> |r| == |orders|
    ensures var start := PageStart(|orders|, skip);
            |r| == if limit < 0 || start + limit >= |orders| then |orders| - start else limit
    ensures var start := if skip < 0 then 0 else skip;
            forall k :: 0 <= k < |r| ==> start + k < |orders| && r[k] == View(orders[start + k], details)
  {
    var start := PageStart(|orders|, skip);
    var end := PageEnd(|orders|, start, limit);
    seq(end - start, k requires 0 <= k < end - start => View(orders[start + k], details))
  }

  /**
    `read_orders` called without query parameters: the first ten orders, or
    all of them when there are fewer.
  */
  lemma ReadOrdersDefault(orders: seq<Order>, details: seq<OrderDetail>)
    ensures var r := ReadOrders(orders, details, DefaultSkip, DefaultLimit);
            && |r| == (if |orders| < 10 then |orders| else 10)
            && forall k :: 0 <= k < |r| ==> r[k] == View(orders[k], details)
  {
  }

  /** Two consecutive pages together are the page that spans both. */
  lemma ReadOrdersPages(orders: seq<Order>, details: seq<OrderDetail>, skip: nat, a: nat, b: nat)
    ensures ReadOrders(orders, details, skip, a) + ReadOrders(orders, details, skip + a, b)
            == ReadOrders(orders, details, skip, a + b)
  {
    var p, q, all := ReadOrders(orders, details, skip, a), ReadOrders(orders, details, skip + a, b),
                     ReadOrders(orders, details, skip, a + b);
    assert |p| + |q| == |all|;
    forall k | 0 <= k < |all| ensures (p + q)[k] == all[k] {
      if k >= |p| {
        assert (p + q)[k] == q[k - |p|];
      }
    }
  }

  /** Every order a page lists is what `read_order` returns for its id. */
  lemma ReadOrdersAgreesWithReadOrder(orders: seq<Order>, details: seq<OrderDetail>, skip: int, limit: int, k: nat)
    requires IdsAscending(orders)
    requires k < |ReadOrders(orders, details, skip, limit)|
    ensures var v := ReadOrders(orders, details, skip, limit)[k];
            ReadOrder(orders, details, v.order.id) == Ok(v)
  {
    IndexOfUnique(orders, if skip < 0 then k else skip + k);
  }

  /** What deleting an order does to the detail table: its rows stay, their order_id cleared. */
  function Detach(details: seq<OrderDetail>, orderId: int): (r: seq<OrderDetail>)
    ensures |r| == |details|
    ensures forall k :: 0 <= k < |details| ==>
              r[k] == if details[k].orderId == Some(orderId) then details[k].(orderId := None) else details[k]
  {
    if details == [] then []
    else
      [if details[0].orderId == Some(orderId) then details[0].(orderId := None) else details[0]]
      + Detach(details[1..], orderId)
  }

  /** After deleting an order none of its rows are listed under its id, and other orders keep theirs. */
  lemma {:induction false} DetachDetails(details: seq<OrderDetail>, orderId: int, other: int)
    ensures DetailsOf(Detach(details, orderId), orderId) == []
    ensures other != orderId ==> DetailsOf(Detach(details, orderId), other) == DetailsOf(details, other)
  {
    if details != [] {
      DetachDetails(details[1..], orderId, other);
      assert Detach(details, orderId)[1..] == Detach(details[1..], orderId);
    }
  }

  /** Removing the order at position k keeps the ids ascending and leaves no order with its id. */
  lemma DeletedOrderIsGone(orders: seq<Order>, k: nat)
    requires IdsAscending(orders) && k < |orders|
    ensures IdsAscending(orders[..k] + orders[k + 1..])
    ensures IndexOf(orders[..k] + orders[k + 1..], orders[k].id) == None
  {
    var rest := orders[..k] + orders[k + 1..];
    forall j | 0 <= j < |rest| ensures rest[j] == orders[if j < k then j else j + 1] {
    }
    forall j | 0 <= j < |rest| ensures rest[j].id != orders[k].id {
      assert rest[j] == orders[if j < k then j else j + 1];
    }
  }

  /** Overwriting header fields other than the id keeps the ids and the lookup by id. */
  lemma UpdatedOrderStays(orders: seq<Order>, k: nat, o: Order)
    requires IdsAscending(orders) && k < |orders| && o.id == orders[k].id
    ensures IdsAscending(orders[k := o])
    ensures IndexOf(orders[k := o], o.id) == Some(k)
  {
    IndexOfUnique(orders[k := o], k);
  }

  // ---------------------------------------------------------------------------
  // The line loop of create_order (main.py:185-196)

  /**
    The checks on one requested line against the stock as it stands:
    an absent product is a 404, a stock below the line quantity a 400.
  */
  function LineError(stock: Inventory, line: LineRequest): (r: Option<Error>)
    ensures r.None? <==> line.productId in stock && stock[line.productId].quantity >= line.quantity
    ensures r == Some(ProductNotFound(line.productId)) <==> line.productId !in stock
    ensures r.Some? ==> r == Some(ProductNotFound(line.productId)) || r == Some(NotEnoughQuantity(line.productId))
  {
    if line.productId !in stock then Some(ProductNotFound(line.productId))
    else if stock[line.productId].quantity < line.quantity then Some(NotEnoughQuantity(line.productId))
    else None
  }

  /** `db_product.quantity -= detail.quantity` */
  function Take(stock: Inventory, line: LineRequest): (r: Inventory)
    requires line.productId in stock
    ensures r.Keys == stock.Keys
    ensures r[line.productId].quantity == stock[line.productId].quantity - line.quantity
    ensures r[line.productId].(quantity := 0) == stock[line.productId].(quantity := 0)
    ensures forall pid :: pid in stock && pid != line.productId ==> r[pid] == stock[pid]
  {
    var p := stock[line.productId];
    stock[line.productId := p.(quantity := p.quantity - line.quantity)]
  }

  /**
    What the line loop leaves behind: the stock, the detail rows committed,
    and the error that stopped it, if any.
  */
  datatype LinesOutcome = LinesOutcome(stock: Inventory, added: seq<OrderDetail>, failure: Option<Error>)

  /**
    The line loop as written: each line in turn is checked against the stock
    left by the lines before it; a passing line is decremented and committed
    as a detail row of `orderId` with the next detail id; the first failing
    line stops the loop, and what was committed before it stays.
  */
  function FulfilLines(stock: Inventory, lines: seq<LineRequest>, orderId: nat, nextDetailId: nat): (r: LinesOutcome)
    ensures |r.added| <= |lines|
    ensures r.stock.Keys == stock.Keys
  {
    if lines == [] then LinesOutcome(stock, [], None)
    else
      match LineError(stock, lines[0])
      case Some(e) => LinesOutcome(stock, [], Some(e))
      case None =>
        var row := OrderDetail(nextDetailId, Some(orderId), lines[0].productId, lines[0].quantity);
        var rest := FulfilLines(Take(stock, lines[0]), lines[1..], orderId, nextDetailId + 1);
        LinesOutcome(rest.stock, [row] + rest.added, rest.failure)
  }

  /** One turn of the loop at position i: a failing line stops it, a passing one is taken. */
  lemma FulfilStep(stock: Inventory, lines: seq<LineRequest>, i: nat, orderId: nat, nextDetailId: nat)
    requires i < |lines|
    ensures LineError(stock, lines[i]).Some? ==>
              FulfilLines(stock, lines[i..], orderId, nextDetailId)
              == LinesOutcome(stock, [], LineError(stock, lines[i]))
    ensures LineError(stock, lines[i]).None? ==>
              var rest := FulfilLines(Take(stock, lines[i]), lines[i + 1..], orderId, nextDetailId + 1);
              FulfilLines(stock, lines[i..], orderId, nextDetailId)
              == LinesOutcome(rest.stock,
                              [OrderDetail(nextDetailId, Some(orderId), lines[i].productId, lines[i].quantity)] + rest.added,
                              rest.failure)
  {
    assert lines[i..][0] == lines[i] && lines[i..][1..] == lines[i + 1..];
  }

  /** The loop after line i passed: the prefix grows by that line, its row and its decrement. */
  lemma PrefixPasses(stock: Inventory, lines: seq<LineRequest>, i: nat, orderId: nat, nextDetailId: nat,
                     current: Inventory, added: seq<OrderDetail>)
    requires i < |lines|
    requires FulfilLines(stock, lines[..i], orderId, nextDetailId) == LinesOutcome(current, added, None)
    requires LineError(current, lines[i]).None?
    ensures |added| == i
    ensures FulfilLines(stock, lines[..i + 1], orderId, nextDetailId)
            == LinesOutcome(Take(current, lines[i]),
                            added + [OrderDetail(nextDetailId + i, Some(orderId), lines[i].productId, lines[i].quantity)],
                            None)
  {
    LinesRows(stock, lines[..i], orderId, nextDetailId);
    assert lines[..i + 1] == lines[..i] + [lines[i]];
    LinesSequential(stock, lines[..i], [lines[i]], orderId, nextDetailId);
    FulfilStep(current, [lines[i]], 0, orderId, nextDetailId + i);
    assert [lines[i]][0..] == [lines[i]] && [lines[i]][1..] == [];
  }

  /** The loop stopped at line i: the outcome is the prefix's, with line i's error. */
  lemma PrefixFails(stock: Inventory, lines: seq<LineRequest>, i: nat, orderId: nat, nextDetailId: nat,
                    current: Inventory, added: seq<OrderDetail>)
    requires i < |lines|
    requires FulfilLines(stock, lines[..i], orderId, nextDetailId) == LinesOutcome(current, added, None)
    requires LineError(current, lines[i]).Some?
    ensures FulfilLines(stock, lines, orderId, nextDetailId) == LinesOutcome(current, added, LineError(current, lines[i]))
  {
    assert lines == lines[..i] + lines[i..];
    LinesSequential(stock, lines[..i], lines[i..], orderId, nextDetailId);
    FulfilStep(current, lines, i, orderId, nextDetailId + i);
  }

  /** The total quantity the lines request of one product. */
  function QuantityFor(lines: seq<LineRequest>, productId: int): int {
    if lines == [] then 0
    else (if lines[0].productId == productId then lines[0].quantity else 0) + QuantityFor(lines[1..], productId)
  }

  lemma {:induction false} QuantityForAbsent(lines: seq<LineRequest>, productId: int)
    requires forall k :: 0 <= k < |lines| ==> lines[k].productId != productId
    ensures QuantityFor(lines, productId) == 0
  {
    if lines != [] {
      QuantityForAbsent(lines[1..], productId);
    }
  }

  /**
    One detail row per passed line, in submitted order, carrying the order id,
    consecutive detail ids and the line's product and quantity; the loop fails
    exactly when some line did not pass.
  */
  lemma {:induction false} LinesRows(stock: Inventory, lines: seq<LineRequest>, orderId: nat, nextDetailId: nat)
    ensures var r := FulfilLines(stock, lines, orderId, nextDetailId);
            && |r.added| <= |lines|
            && (r.failure.None? <==> |r.added| == |lines|)
            && forall k :: 0 <= k < |r.added| ==>
                 r.added[k] == OrderDetail(nextDetailId + k, Some(orderId), lines[k].productId, lines[k].quantity)
  {
    if lines != [] && LineError(stock, lines[0]).None? {
      var rest := FulfilLines(Take(stock, lines[0]), lines[1..], orderId, nextDetailId + 1);
      LinesRows(Take(stock, lines[0]), lines[1..], orderId, nextDetailId + 1);
      var r := FulfilLines(stock, lines, orderId, nextDetailId);
      forall k | 1 <= k < |r.added|
        ensures r.added[k] == OrderDetail(nextDetailId + k, Some(orderId), lines[k].productId, lines[k].quantity)
      {
        assert r.added[k] == rest.added[k - 1];
        assert lines[1..][k - 1] == lines[k];
      }
    }
  }

  /**
    The stock after the loop: the same products, each with its quantity
    lowered by the total of the lines that passed for it, nothing else about
    it changed.
  */
  lemma {:induction false} LinesStock(stock: Inventory, lines: seq<LineRequest>, orderId: nat, nextDetailId: nat)
    ensures var r := FulfilLines(stock, lines, orderId, nextDetailId);
            && |r.added| <= |lines|
            && r.stock.Keys == stock.Keys
            && forall pid :: pid in stock ==>
                 r.stock[pid] == stock[pid].(quantity := stock[pid].quantity - QuantityFor(lines[..|r.added|], pid))
  {
    LinesRows(stock, lines, orderId, nextDetailId);
    var r := FulfilLines(stock, lines, orderId, nextDetailId);
    if lines == [] || LineError(stock, lines[0]).Some? {
      assert lines[..|r.added|] == [];
    } else {
      var line := lines[0];
      var after := Take(stock, line);
      var rest := FulfilLines(after, lines[1..], orderId, nextDetailId + 1);
      LinesStock(after, lines[1..], orderId, nextDetailId + 1);
      var n := |r.added|;
      assert n == |rest.added| + 1;
      assert lines[..n][0] == line;
      assert lines[..n][1..] == lines[1..][..|rest.added|];
      forall pid | pid in stock
        ensures r.stock[pid] == stock[pid].(quantity := stock[pid].quantity - QuantityFor(lines[..n], pid))
      {
        assert QuantityFor(lines[..n], pid)
            == (if line.productId == pid then line.quantity else 0) + QuantityFor(lines[1..][..|rest.added|], pid);
      }
    }
  }

  /** A successful loop lowers each product's stock by exactly what the lines request of it. */
  lemma FulfilledStock(stock: Inventory, lines: seq<LineRequest>, orderId: nat, nextDetailId: nat)
    requires FulfilLines(stock, lines, orderId, nextDetailId).failure.None?
    ensures var r := FulfilLines(stock, lines, orderId, nextDetailId);
            && r.stock.Keys == stock.Keys
            && forall pid :: pid in stock ==> r.stock[pid].quantity == stock[pid].quantity - QuantityFor(lines, pid)
  {
    LinesRows(stock, lines, orderId, nextDetailId);
    LinesStock(stock, lines, orderId, nextDetailId);
    assert lines[..|lines|] == lines;
  }

  /** Products that no line names keep their stock, whether the loop fails or not. */
  lemma UnreferencedUnchanged(stock: Inventory, lines: seq<LineRequest>, orderId: nat, nextDetailId: nat, pid: int)
    requires pid in stock
    requires forall k :: 0 <= k < |lines| ==> lines[k].productId != pid
    ensures var r := FulfilLines(stock, lines, orderId, nextDetailId);
            pid in r.stock && r.stock[pid] == stock[pid]
  {
    LinesStock(stock, lines, orderId, nextDetailId);
    var n := |FulfilLines(stock, lines, orderId, nextDetailId).added|;
    QuantityForAbsent(lines[..n], pid);
  }

  /**
    Each line that passed found its product, with at least the line quantity in
    stock after the decrements of the lines before it.
  */
  lemma {:induction false} PassedLineHadStock(stock: Inventory, lines: seq<LineRequest>, orderId: nat, nextDetailId: nat, k: nat)
    requires k < |FulfilLines(stock, lines, orderId, nextDetailId).added|
    ensures k < |lines|
    ensures var before := FulfilLines(stock, lines[..k], orderId, nextDetailId).stock;
            lines[k].productId in before && before[lines[k].productId].quantity >= lines[k].quantity
  {
    LinesRows(stock, lines, orderId, nextDetailId);
    if k == 0 {
      assert lines[..0] == [];
    } else {
      var after := Take(stock, lines[0]);
      PassedLineHadStock(after, lines[1..], orderId, nextDetailId + 1, k - 1);
      assert lines[..k][0] == lines[0];
      assert lines[..k][1..] == lines[1..][..k - 1];
    }
  }

  /**
    When the loop fails, it failed on the line right after the passed ones,
    with that line's error, and the outcome is exactly that of the passed
    lines alone: the failing line and every later line change nothing.
  */
  lemma {:induction false} LinesFailure(stock: Inventory, lines: seq<LineRequest>, orderId: nat, nextDetailId: nat)
    ensures var r := FulfilLines(stock, lines, orderId, nextDetailId);
            && |r.added| <= |lines|
            && (r.failure.Some? ==> |r.added| < |lines| && r.failure == LineError(r.stock, lines[|r.added|]))
            && FulfilLines(stock, lines[..|r.added|], orderId, nextDetailId) == LinesOutcome(r.stock, r.added, None)
  {
    LinesRows(stock, lines, orderId, nextDetailId);
    var r := FulfilLines(stock, lines, orderId, nextDetailId);
    if lines == [] || LineError(stock, lines[0]).Some? {
      assert lines[..|r.added|] == [];
    } else {
      var after := Take(stock, lines[0]);
      var rest := FulfilLines(after, lines[1..], orderId, nextDetailId + 1);
      LinesFailure(after, lines[1..], orderId, nextDetailId + 1);
      var n := |r.added|;
      assert lines[..n][0] == lines[0];
      assert lines[..n][1..] == lines[1..][..|rest.added|];
      if r.failure.Some? {
        assert lines[n] == lines[1..][|rest.added|];
      }
    }
  }

  /** The loop over a + b is the loop over a, followed, if a all passed, by the loop over b. */
  lemma {:induction false} LinesSequential(stock: Inventory, a: seq<LineRequest>, b: seq<LineRequest>, orderId: nat, nextDetailId: nat)
    ensures var ra := FulfilLines(stock, a, orderId, nextDetailId);
            FulfilLines(stock, a + b, orderId, nextDetailId)
            == if ra.failure.Some? then ra
               else
                 var rb := FulfilLines(ra.stock, b, orderId, nextDetailId + |a|);
                 LinesOutcome(rb.stock, ra.added + rb.added, rb.failure)
  {
    if a == [] {
      assert a + b == b;
    } else {
      assert (a + b)[0] == a[0];
      assert (a + b)[1..] == a[1..] + b;
      if LineError(stock, a[0]).None? {
        LinesSequential(Take(stock, a[0]), a[1..], b, orderId, nextDetailId + 1);
      }
    }
  }

  /** A product whose stock was not negative before the loop is not negative after it. */
  lemma {:induction false} StockNeverNegative(stock: Inventory, lines: seq<LineRequest>, orderId: nat, nextDetailId: nat)
    ensures var r := FulfilLines(stock, lines, orderId, nextDetailId);
            forall pid :: pid in stock && stock[pid].quantity >= 0 ==> pid in r.stock && r.stock[pid].quantity >= 0
  {
    if lines != [] && LineError(stock, lines[0]).None? {
      StockNeverNegative(Take(stock, lines[0]), lines[1..], orderId, nextDetailId + 1);
    }
  }
}
