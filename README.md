# Order service: a Dafny model of `main.py`

This project models the order service of the "Paye ton kawa" microservices.
It covers a FastAPI application backed by SQLAlchemy over SQLite. It creates
orders against a product stock table, lists, reads, updates and deletes them,
adds and lists order-detail rows, and publishes a text message to Kafka for
each change.

The database session is modelled as a class, `OrderStore.Store`, with four fields:

- `products`: the product table, a map from product id to `Product`, which
  includes the stock `quantity`;
- `orders`: the order table, a sequence of `Order` headers in ascending id order;
- `details`: the order-detail table, a sequence of `OrderDetail` rows in
  ascending id order;
- `log`: the messages published so far, in order.

The endpoints that change state are methods of `Store`. Their `ensures` give
the whole new state. The read endpoints are pure functions over the tables
(`Orders.ReadOrder`, `Orders.ReadOrders`, `Orders.DetailsOf`). Errors that the
source raises as `HTTPException` are values of `Orders.Error`:
`ProductNotFound` and `OrderNotFound` are the 404s, and `NotEnoughQuantity`
is the 400.

`create_order` is specified by `Orders.FulfilLines`, a recursive function
that describes its line loop as written:

- each line is checked against the stock left by the earlier lines;
- a line that passes is decremented and committed as a detail row;
- the first line that fails stops the loop;
- what was committed before the failing line stays committed.

The pending header is committed before the loop. So a failed `create_order`
leaves behind the header, the earlier lines' rows and their decrements. It
publishes no message. The lemmas about `FulfilLines` state what this means:
the rows added, the exact drop in stock, which line failed and why, that
stock never becomes negative, and how the loop splits over concatenated
requests.

Module layout:

- `wrappers.dfy`: `Option`.
- `notifications.dfy`: the message texts (`f"Order created: {id}"` and the
  rest), Python's decimal rendering of ids, and the parse-back proof that a
  payload names its event and id exactly.
- `orders.dfy`: the records, the primary-key rules, the queries, and
  `FulfilLines` with its lemmas.
- `store.dfy`: the `Store` class, and `DeleteKeepsStock`, a client scenario.
  The scenario creates an order for 2 units of product 1 against a stock of
  10, so the stock becomes 8. It then deletes the order: the stock stays 8,
  `read_order` returns 404, and the log holds the "created" and "deleted"
  messages.

Behaviour of the code and the library that the model keeps:

- Partial commits. Order creation is not all-or-nothing. The code commits the
  header and then each line separately, so a failure leaves the earlier
  commits in place.
- Status. The `status` column only ever holds its default, `"pending"`:
  `update_order` keeps the status, and `delete_order` removes the row.
- Line quantities. The code accepts any integer quantity that fits SQLite's
  64-bit `INTEGER` (see "## Left out" for values outside it). A line passes
  exactly when its product's current stock is at least the line quantity, so
  a negative quantity raises the stock.
- Stock after delete. Deleting an order gives no stock back.
  `create_order_detail` checks nothing and changes no stock.
- Ids. Order and detail ids follow SQLite's `INTEGER PRIMARY KEY` rule: one
  more than the largest id in the table, or 1 for an empty table. Deleting
  the newest order therefore lets its id be given out again.
- Detail rows of a deleted order. The `Order.order_details` relationship has
  no delete cascade. When the order is deleted, the ORM keeps its detail rows
  and clears their `order_id` (`Orders.Detach`), so they no longer belong to
  any order.
- Paging. `read_orders` uses SQLite's `OFFSET`/`LIMIT` rules: a negative
  offset counts as 0, and a negative limit means no limit. Rows come in id
  order.

## Model

| member | source | states |
|---|---|---|
| `Notifications.Decimal` | main.py:200 | the id in a message is written as Python writes an int: a non-empty string of digits with no leading zero, and "0" for zero |
| `Notifications.DecimalRoundTrip` | main.py:200 | reading the digits back gives the id that was written |
| `Notifications.Text` | main.py:200 | a payload is the event's fixed prefix followed by the decimal digits of its id |
| `Notifications.ParseText` | main.py:200-244 | each of the four payload kinds ("Order created", "Order updated", "Order deleted", "Order detail created") parses back to exactly its event and id |
| `Notifications.TextInjective` | main.py:200-244 | two different events never publish the same payload, so a consumer can tell events apart by kind and id |
| `Orders.NextOrderId` | main.py:33 | a new order gets an id of at least 1 that is larger than every id in the order table |
| `Orders.NextDetailId` | main.py:43 | a new detail row gets an id of at least 1 that is larger than every detail id in use |
| `Orders.AppendNextOrder` | main.py:180-183 | inserting the new header keeps the ids ascending, and the header is found by its id at the end of the table |
| `Orders.AppendNextDetail` | main.py:193-195 | inserting a detail row with the next id keeps the ids ascending and moves the next id on by one |
| `Orders.IndexOf` | main.py:210 | the lookup by id returns the first position holding that id; it returns None only when no order has that id |
| `Orders.IndexOfUnique` | main.py:33 | with unique primary keys, looking up an order's id finds that very order |
| `Orders.ReadOrder` | main.py:209-213 | `read_order` returns the order with that id, with exactly its detail rows; it returns 404 exactly when no order has that id |
| `Orders.ReadOrders` | main.py:204-206 | `read_orders(skip, limit)` returns the orders from position `skip` (a negative skip counts as 0), contiguous and in table order; it holds exactly `limit` of them, or all that remain from the start when the limit is negative or reaches past the end; it returns nothing when `skip` is past the end |
| `Orders.ReadOrdersDefault` | main.py:204-205 | with the default query parameters (skip 0, limit 10) the result is the first ten orders, or all of them when there are fewer |
| `Orders.PageStart` | main.py:205 | SQLite's `OFFSET skip`: a negative skip starts at the first row, a skip within the table starts at that row, a skip past the end starts at the end |
| `Orders.PageEnd` | main.py:205 | SQLite's `LIMIT limit`: a negative limit runs to the end of the table; otherwise the page ends `limit` rows after its start, or at the end of the table if that comes first |
| `Orders.ReadOrdersPages` | main.py:205 | the page at `skip` of size a, followed by the page at `skip + a` of size b, is the page at `skip` of size a + b |
| `Orders.ReadOrdersAgreesWithReadOrder` | main.py:204-213 | every order in a page is what `read_order` returns for its id |
| `Orders.DetailsOf` | main.py:248-250 | `read_order_details` returns exactly the rows whose order_id is the given id, and nothing else |
| `Orders.DetailsOfAppend` | main.py:249 | the rows of an order in a table extended by new rows are the old rows of that order followed by the new rows of that order |
| `Orders.DetailsOfOwnRows` | main.py:198-199 | rows that all carry one order's id are all returned as that order's details, in order |
| `Orders.Detach` | main.py:232-233 | deleting an order keeps every detail row, clears order_id on the rows of that order and leaves the other rows unchanged |
| `Orders.DetachDetails` | main.py:232-233 | after a delete, no detail row is listed under the deleted order's id, and every other order keeps exactly its rows |
| `Orders.DeletedOrderIsGone` | main.py:229-233 | removing the found order keeps the ids ascending and leaves no order with the deleted id |
| `Orders.UpdatedOrderStays` | main.py:220-222 | overwriting an order's header fields keeps the ids, and the order is still found at its position by its id |
| `Orders.LineError` | main.py:186-190 | the checks on one line: it passes exactly when its product exists and has at least the line quantity in stock; an absent product is the 404 `ProductNotFound` and a short stock the 400 `NotEnoughQuantity`, both naming the line's product |
| `Orders.Take` | main.py:192 | taking a line lowers its product's stock by the line quantity and changes nothing else: the same products, the product's other fields, every other product |
| `Orders.FulfilLines` | main.py:185-196 | the specification of the line loop that `CreateOrder`, `CommitLines` and the lemmas below are stated against; its own contract: at most one row per line, and the product table keeps exactly its products |
| `Orders.FulfilStep` | main.py:186-196 | a proof step, not a property of its own: the definition of `FulfilLines` unfolded once at position i (a failing line i ends the run with its error; a passing one adds its row and continues with the decremented stock) |
| `Orders.PrefixPasses` | main.py:189-196 | when line i passes after the lines before it, the lines up to and including i have added one row each, the i-th carrying the next detail id, and the stock has dropped by line i's quantity |
| `Orders.PrefixFails` | main.py:186-190 | when line i fails after the lines before it passed, the whole request ends with line i's error, and the stock and rows are those left by the lines before i |
| `Orders.QuantityForAbsent` | main.py:185-192 | a product that no line names is requested in total quantity 0 |
| `Orders.LinesRows` | main.py:193-196 | one detail row is added per passing line, in submitted order, with consecutive detail ids, the new order's id, and the line's product and quantity; the loop fails exactly when fewer rows than lines were added |
| `Orders.LinesStock` | main.py:189-192 | the product table keeps its products, and each product's stock drops by the total quantity that the passing lines request of it; nothing else about a product changes |
| `Orders.FulfilledStock` | main.py:185-196 | when every line passes, each product's stock drops by exactly the sum of the quantities of the lines that name it |
| `Orders.UnreferencedUnchanged` | main.py:185-196 | a product that no line names is unchanged, whether the request succeeds or fails |
| `Orders.PassedLineHadStock` | main.py:186-192 | each passing line found its product with at least the line quantity in stock, counted after the decrements of the earlier lines |
| `Orders.LinesFailure` | main.py:186-195 | a failing request failed on the line right after the passed ones, with that line's error; the stock and rows left are exactly those of the passed lines alone, so the failing line and all later lines change nothing |
| `Orders.LinesSequential` | main.py:185-196 | running the loop over two requests joined together is the same as running it over the first and then, if the first passed, over the second |
| `Orders.StockNeverNegative` | main.py:189-192 | a product whose stock was not negative before the loop is not negative after it, whatever the signs of the requested quantities |
| `OrderStore.Store.constructor` | main.py:63 | a fresh store holds the given products, no orders, no detail rows and no messages |
| `OrderStore.Store.CreateOrder` | main.py:179-201 | a pending header with a fresh id is always appended; stock and detail rows are what `FulfilLines` leaves; on success the result is the order with its detail rows, `read_order` returns the same, and "Order created: id" is appended to the log; on failure the result is the failing line's error and the log is unchanged |
| `OrderStore.Store.CommitLines` | main.py:185-196 | the loop, written over the store's fields, leaves exactly the stock, the rows and the error that `FulfilLines` gives |
| `OrderStore.Store.UpdateOrder` | main.py:216-225 | an absent id gives 404 and changes nothing; otherwise the customer name and total are overwritten, the id and status are kept, the result is what `read_order` now returns, and "Order updated: id" is logged; stock and detail rows never change |
| `OrderStore.Store.DeleteOrder` | main.py:228-235 | an absent id gives 404 and changes nothing; otherwise the order is removed, its detail rows are detached, "Order deleted" is returned and "Order deleted: id" is logged; stock is never restored, and the id is not found afterwards |
| `OrderStore.Store.CreateOrderDetail` | main.py:239-245 | one row is appended with a fresh id and the given order id, product id and quantity, with no existence or stock check; products and orders are unchanged, and "Order detail created: id" is logged |

## Left out

- Authentication is left out: JWT creation and checking, bcrypt, `authenticate_user`, `/token` and `create_initial_user` (main.py:135-176, 253-264). They are calls into cryptographic libraries, so every caller is taken to be authenticated.
- The Kafka producer is left out: `produce`, `poll` and `delivery_report` (main.py:119-132) are network I/O. Publishing is modelled as appending the payload to `log`, and it always succeeds. A `produce` call that raises (a full local queue) after the commit is not modelled.
- The SQLAlchemy engine, the session factory and `get_db` (main.py:16-20, 110-116) are replaced by the `Store` fields. The Pydantic schemas (main.py:65-108) are replaced by the record datatypes. Request-body validation, such as the 422 for a malformed body, is not modelled.
- `total_amount` and `price` are Float columns. They are carried as `real` values that are never computed with.
- `OrderStore.Store.UpdateOrder` does not model the `order_details` entry of the update loop (main.py:220-221). That loop assigns a list of plain dicts to an ORM relationship, and the outcome depends on the library. Only `customer_name` and `total_amount` are overwritten.
- The model's integers are unbounded, while SQLite's `INTEGER` columns (main.py:46, 58) hold 64-bit values, and binding a value outside [-2^63, 2^63-1] makes the statement raise (a 500). So a `product_id` of 2^63 or more fails at the lookup of main.py:186 instead of giving `ProductNotFound`, and a decrement that takes a stock outside that range (say two lines of quantity -2^62 against a stock of 10) fails at the commit of main.py:195, rolling that line back. The model instead commits such a line and goes on. `Orders.FulfilLines`, `OrderStore.Store.CommitLines` and `OrderStore.Store.CreateOrder` are exact only for values inside the 64-bit range.
- A product whose `quantity` is NULL makes the comparison at main.py:189 raise a 500. The model's `Product.quantity` is always an integer.
- Concurrency is left out: every request runs alone on the store. The read-then-write race between two concurrent `create_order` calls on the same product is outside the model.
- The row order of `read_orders` and of an order's `order_details` is taken to be ascending id. The query has no ORDER BY, and ascending id is the order SQLite returns rows in.
- The product endpoints and the client service are not part of this model. The tests (tests/test_main.py, test_main.py) exercise `/clients/` endpoints that do not exist in this main.py. fill_db.py, create_db.py and locustfile.py are seeding, schema and load-testing scripts.
