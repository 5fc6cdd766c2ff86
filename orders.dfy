/** The order engine of `OrderService`: order placement, the status state
    machine with inventory restoration on cancellation, and the sales report.

    Placement is modelled as the source performs it: a validation pass that
    writes nothing, then the order row, then for each item its line row and
    its stock decrement, one after the other. The transaction handle given
    to the create calls and to `updateStock` is not used by those calls, so
    a failure during the writes leaves what was already written in place;
    `CreateOrderAtomic` is the rollback the code evidently intends. */
module Orders {
  import opened Results
  import opened Products

  datatype Status = Pending | Shipped | Delivered | Cancelled

  function StatusName(s: Status): string {
    match s
    case Pending => "pending"
    case Shipped => "shipped"
    case Delivered => "delivered"
    case Cancelled => "cancelled"
  }

  /** Membership in `validStatuses`, as a status. */
  function ParseStatus(s: string): (r: Option<Status>)
    ensures r.Some? ==> StatusName(r.value) == s
    ensures forall st :: s == StatusName(st) ==> r == Some(st)
  {
    if s == "pending" then Some(Pending)
    else if s == "shipped" then Some(Shipped)
    else if s == "delivered" then Some(Delivered)
    else if s == "cancelled" then Some(Cancelled)
    else None
  }

  datatype ItemRequest = ItemRequest(productId: ProductId, quantity: int)

  datatype Order = Order(id: nat, userId: int, total: int, status: Status, createdAt: int)

  /** An order line: the price is the product's price when the order was
      placed, the subtotal that price times the quantity. */
  datatype OrderItem = OrderItem(orderId: nat, productId: ProductId, price: int, quantity: int, subtotal: int)

  // ---------------------------------------------------------------------------
  // The validation pass of createOrder

  predicate Available(c: Catalog, it: ItemRequest) {
    it.productId in c && c[it.productId].stock >= it.quantity
  }

  function ItemError(c: Catalog, it: ItemRequest): Error {
    if it.productId !in c then NotFound(MissingProduct, it.productId) else InsufficientStock(it.productId)
  }

  /** Price times quantity over the items, at the catalog's prices. */
  function RequestedTotal(c: Catalog, items: seq<ItemRequest>): int
    requires forall i :: 0 <= i < |items| ==> items[i].productId in c
    decreases |items|
  {
    if items == [] then 0
    else
      var it := items[|items| - 1];
      RequestedTotal(c, items[..|items| - 1]) + c[it.productId].price * it.quantity
  }

  /** The validation pass: every item must name an existing product with
      enough stock, each checked against the unchanged catalog; the result is
      the order total, or the error of the first item that fails. */
  function Validate(c: Catalog, items: seq<ItemRequest>): (r: Result<int>)
    ensures r.Ok? <==> forall i :: 0 <= i < |items| ==> Available(c, items[i])
    ensures r.Ok? ==> r.value == RequestedTotal(c, items)
    ensures r.Err? ==> exists i :: 0 <= i < |items| && !Available(c, items[i]) && r.error == ItemError(c, items[i])
                                   && forall j :: 0 <= j < i ==> Available(c, items[j])
    decreases |items|
  {
    if items == [] then Ok(0)
    else
      var n := |items| - 1;
      var prev := Validate(c, items[..n]);
      assert forall j :: 0 <= j < n ==> items[..n][j] == items[j];
      if prev.Err? then prev
      else if !Available(c, items[n]) then Err(ItemError(c, items[n]))
      else Ok(prev.value + c[items[n].productId].price * items[n].quantity)
  }

  /** Once a prefix fails validation, so does the whole list, with that error. */
  lemma {:induction false} ValidateErrSticks(c: Catalog, items: seq<ItemRequest>, j: nat)
    requires j <= |items| && Validate(c, items[..j]).Err?
    ensures Validate(c, items) == Validate(c, items[..j])
    decreases |items| - j
  {
    if j < |items| {
      assert items[..j + 1][..j] == items[..j];
      ValidateErrSticks(c, items, j + 1);
    } else {
      assert items[..j] == items;
    }
  }

  // ---------------------------------------------------------------------------
  // The write phase of createOrder

  datatype Written = Written(products: Catalog, lines: seq<OrderItem>, failure: Option<Error>)

  /** The write loop: for each item in turn its line is inserted (the table
      rejects a quantity below 1), then its stock is decremented through
      `updateStock`. The first failure stops the loop and nothing already
      written is undone. */
  function WriteLines(c: Catalog, orderId: nat, items: seq<ItemRequest>): (w: Written)
    ensures |w.lines| <= |items|
    ensures w.failure.None? ==> |w.lines| == |items|
    decreases |items|
  {
    if items == [] then Written(c, [], None)
    else WriteStep(WriteLines(c, orderId, items[..|items| - 1]), orderId, items[|items| - 1])
  }

  /** One iteration of the write loop, after the writes so far. */
  function WriteStep(prev: Written, orderId: nat, it: ItemRequest): (w: Written)
    ensures prev.failure.Some? ==> w == prev
    ensures w.failure.None? ==> |w.lines| == |prev.lines| + 1
    ensures |prev.lines| <= |w.lines| <= |prev.lines| + 1
  {
    if prev.failure.Some? then prev
    else if it.productId !in prev.products then Written(prev.products, prev.lines, Some(Internal))
    else if it.quantity < 1 then Written(prev.products, prev.lines, Some(InvalidInput))
    else
      var price := prev.products[it.productId].price;
      var line := OrderItem(orderId, it.productId, price, it.quantity, price * it.quantity);
      match ApplyStockDelta(prev.products, it.productId, -it.quantity)
      case Err(e) => Written(prev.products, prev.lines + [line], Some(e))
      case Ok(next) => Written(next, prev.lines + [line], None)
  }

  /** One step appends at most the item's line, at the product's current
      price, and changes nothing in the catalog but stock. */
  lemma WriteStepShape(prev: Written, orderId: nat, it: ItemRequest)
    ensures var w := WriteStep(prev, orderId, it);
            && w.lines[..|prev.lines|] == prev.lines
            && (|w.lines| > |prev.lines| ==>
                  && it.productId in prev.products
                  && it.quantity >= 1
                  && w.lines[|prev.lines|] == OrderItem(orderId, it.productId, prev.products[it.productId].price,
                                                        it.quantity, prev.products[it.productId].price * it.quantity))
            && w.products.Keys == prev.products.Keys
            && (forall pid :: pid in prev.products ==> w.products[pid] == prev.products[pid].(stock := w.products[pid].stock))
            && (ValidCatalog(prev.products) ==> ValidCatalog(w.products))
  {
  }

  /** The writes for one more item are one more step. */
  lemma WriteLinesNext(c: Catalog, orderId: nat, items: seq<ItemRequest>, i: nat)
    requires i < |items|
    ensures WriteLines(c, orderId, items[..i + 1]) == WriteStep(WriteLines(c, orderId, items[..i]), orderId, items[i])
  {
    assert items[..i + 1][..i] == items[..i];
  }

  /** The writes change nothing in the catalog but stock, and keep it valid. */
  lemma {:induction false} WriteLinesCatalog(c: Catalog, orderId: nat, items: seq<ItemRequest>)
    ensures WriteLines(c, orderId, items).products.Keys == c.Keys
    ensures forall pid :: pid in c ==>
              WriteLines(c, orderId, items).products[pid] == c[pid].(stock := WriteLines(c, orderId, items).products[pid].stock)
    ensures ValidCatalog(c) ==> ValidCatalog(WriteLines(c, orderId, items).products)
    decreases |items|
  {
    if items != [] {
      var n := |items| - 1;
      WriteLinesCatalog(c, orderId, items[..n]);
      WriteStepShape(WriteLines(c, orderId, items[..n]), orderId, items[n]);
    }
  }

  /** The k-th line written is the k-th item at its product's price, with a
      quantity of at least 1. */
  lemma {:induction false} WriteLinesRows(c: Catalog, orderId: nat, items: seq<ItemRequest>)
    ensures var w := WriteLines(c, orderId, items);
            forall k :: 0 <= k < |w.lines| ==>
              && items[k].productId in c
              && items[k].quantity >= 1
              && w.lines[k] == OrderItem(orderId, items[k].productId, c[items[k].productId].price,
                                         items[k].quantity, c[items[k].productId].price * items[k].quantity)
    decreases |items|
  {
    if items != [] {
      var n := |items| - 1;
      var prev := WriteLines(c, orderId, items[..n]);
      var w := WriteLines(c, orderId, items);
      assert w == WriteStep(prev, orderId, items[n]);
      WriteStepShape(prev, orderId, items[n]);
      WriteLinesRows(c, orderId, items[..n]);
      WriteLinesCatalog(c, orderId, items[..n]);
      forall k | 0 <= k < |w.lines|
        ensures && items[k].productId in c
                && items[k].quantity >= 1
                && w.lines[k] == OrderItem(orderId, items[k].productId, c[items[k].productId].price,
                                           items[k].quantity, c[items[k].productId].price * items[k].quantity)
      {
        if k < |prev.lines| {
          assert items[..n][k] == items[k];
          assert w.lines[k] == w.lines[..|prev.lines|][k];
        } else {
          assert k == |prev.lines| == n;
          var pid := items[n].productId;
          assert pid in prev.products;
          assert prev.products[pid].price == c[pid].price;
        }
      }
    }
  }

  lemma {:induction false} WriteLinesFailureSticks(c: Catalog, orderId: nat, items: seq<ItemRequest>, j: nat)
    requires j <= |items| && WriteLines(c, orderId, items[..j]).failure.Some?
    ensures WriteLines(c, orderId, items) == WriteLines(c, orderId, items[..j])
    decreases |items| - j
  {
    if j < |items| {
      WriteLinesNext(c, orderId, items, j);
      WriteLinesFailureSticks(c, orderId, items, j + 1);
    } else {
      assert items[..j] == items;
    }
  }

  /** Units of `pid` requested over all items. */
  function TotalQuantity(items: seq<ItemRequest>, pid: ProductId): int
    decreases |items|
  {
    if items == [] then 0
    else
      var it := items[|items| - 1];
      TotalQuantity(items[..|items| - 1], pid) + (if it.productId == pid then it.quantity else 0)
  }

  /** When every product has stock for the total quantity requested of it,
      the writes all succeed and each product's stock drops by exactly that
      total; products not in the order keep their stock. */
  lemma {:induction false} WriteLinesExact(c: Catalog, orderId: nat, items: seq<ItemRequest>)
    requires ValidCatalog(c)
    requires forall i :: 0 <= i < |items| ==> items[i].productId in c && items[i].quantity >= 1
    requires forall i :: 0 <= i < |items| ==> TotalQuantity(items, items[i].productId) <= c[items[i].productId].stock
    ensures WriteLines(c, orderId, items).failure.None?
    ensures WriteLines(c, orderId, items).products.Keys == c.Keys
    ensures forall pid :: pid in c ==> WriteLines(c, orderId, items).products[pid].stock == c[pid].stock - TotalQuantity(items, pid)
    decreases |items|
  {
    if items != [] {
      var n := |items| - 1;
      var init, it := items[..n], items[n];
      forall i | 0 <= i < n ensures TotalQuantity(init, init[i].productId) <= c[init[i].productId].stock {
        assert init[i] == items[i];
        assert it.quantity >= 1;
      }
      WriteLinesExact(c, orderId, init);
      WriteLinesCatalog(c, orderId, init);
      assert TotalQuantity(items, it.productId) == TotalQuantity(init, it.productId) + it.quantity;
    }
  }

  /** Whenever the writes all succeed, each product's stock has dropped by
      exactly the total quantity requested of it. */
  lemma {:induction false} WriteLinesSuccessStock(c: Catalog, orderId: nat, items: seq<ItemRequest>)
    requires WriteLines(c, orderId, items).failure.None?
    ensures WriteLines(c, orderId, items).products.Keys == c.Keys
    ensures forall pid :: pid in c ==> WriteLines(c, orderId, items).products[pid].stock == c[pid].stock - TotalQuantity(items, pid)
    decreases |items|
  {
    WriteLinesCatalog(c, orderId, items);
    if items != [] {
      var n := |items| - 1;
      var prev := WriteLines(c, orderId, items[..n]);
      assert WriteLines(c, orderId, items) == WriteStep(prev, orderId, items[n]);
      WriteLinesSuccessStock(c, orderId, items[..n]);
      WriteLinesCatalog(c, orderId, items[..n]);
    }
  }

  /** With distinct product ids, the total quantity of an item's product is
      that item's own quantity. */
  lemma {:induction false} TotalQuantityDistinct(items: seq<ItemRequest>, k: nat)
    requires k < |items|
    requires forall i, j :: 0 <= i < j < |items| ==> items[i].productId != items[j].productId
    ensures TotalQuantity(items, items[k].productId) == items[k].quantity
    decreases |items|
  {
    var n := |items| - 1;
    if k < n {
      TotalQuantityDistinct(items[..n], k);
    } else {
      TotalQuantityAbsent(items[..n], items[k].productId);
    }
  }

  lemma {:induction false} TotalQuantityAbsent(items: seq<ItemRequest>, pid: ProductId)
    requires forall i :: 0 <= i < |items| ==> items[i].productId != pid
    ensures TotalQuantity(items, pid) == 0
    decreases |items|
  {
    if items != [] {
      TotalQuantityAbsent(items[..|items| - 1], pid);
    }
  }

  /** With distinct product ids and positive quantities, an order that
      passes validation is written in full. */
  lemma DistinctItemsWriteInFull(c: Catalog, orderId: nat, items: seq<ItemRequest>)
    requires ValidCatalog(c)
    requires Validate(c, items).Ok?
    requires forall i :: 0 <= i < |items| ==> items[i].quantity >= 1
    requires forall i, j :: 0 <= i < j < |items| ==> items[i].productId != items[j].productId
    ensures WriteLines(c, orderId, items).failure.None?
    ensures |WriteLines(c, orderId, items).lines| == |items|
  {
    forall i | 0 <= i < |items| ensures TotalQuantity(items, items[i].productId) <= c[items[i].productId].stock {
      assert Available(c, items[i]);
      TotalQuantityDistinct(items, i);
    }
    WriteLinesExact(c, orderId, items);
  }

  /** The sum of the subtotals of some lines. */
  function SumSubtotals(lines: seq<OrderItem>): int
    decreases |lines|
  {
    if lines == [] then 0 else SumSubtotals(lines[..|lines| - 1]) + lines[|lines| - 1].subtotal
  }

  /** When every line is written, the subtotals add up to the validated total. */
  lemma {:induction false} SubtotalsMatchTotal(c: Catalog, orderId: nat, items: seq<ItemRequest>)
    requires forall i :: 0 <= i < |items| ==> items[i].productId in c
    requires WriteLines(c, orderId, items).failure.None?
    ensures SumSubtotals(WriteLines(c, orderId, items).lines) == RequestedTotal(c, items)
    decreases |items|
  {
    if items != [] {
      var n := |items| - 1;
      var w := WriteLines(c, orderId, items);
      var w' := WriteLines(c, orderId, items[..n]);
      assert w'.failure.None?;
      WriteLinesRows(c, orderId, items);
      WriteLinesRows(c, orderId, items[..n]);
      SubtotalsMatchTotal(c, orderId, items[..n]);
      assert w.lines[..n] == w'.lines;
    }
  }

  /** Two requests for the same product, each within stock but together
      above it: validation passes, the order row is written, and the second
      stock decrement fails after the first one and both lines were written. */
  lemma DuplicateItemsPartialWrite()
    ensures var c := map[1 := Product(1, "Widget", "A widget", 1999, 3, "Tools")];
            var items := [ItemRequest(1, 2), ItemRequest(1, 2)];
            var w := WriteLines(c, 1, items);
            && Validate(c, items) == Ok(7996)
            && w.failure == Some(InsufficientStock(1))
            && |w.lines| == 2
            && w.products[1].stock == 1
  {
    var c := map[1 := Product(1, "Widget", "A widget", 1999, 3, "Tools")];
    var items := [ItemRequest(1, 2), ItemRequest(1, 2)];
    assert items[..1] == [ItemRequest(1, 2)] && items[..1][..0] == [];
    assert Validate(c, items[..1]) == Ok(3998);
    assert WriteLines(c, 1, []) == Written(c, [], None);
    assert ApplyStockDelta(c, 1, -2) == Ok(c[1 := c[1].(stock := 1)]);
    var w1 := WriteLines(c, 1, items[..1]);
    assert w1.products[1].stock == 1 && w1.failure.None?;
    assert ApplyStockDelta(w1.products, 1, -2) == Err(InsufficientStock(1));
  }

  // ---------------------------------------------------------------------------
  // The status state machine

  /** The checks of `updateOrderStatus` after the order is found: the new
      status must be one of the four, and a cancelled or delivered order
      cannot change. Any other change is allowed, backwards included. */
  function CheckTransition(current: Status, requested: string): (r: Result<Status>)
    ensures ParseStatus(requested).None? ==> r == Err(InvalidInput)
    ensures ParseStatus(requested).Some? && (current == Cancelled || current == Delivered) ==> r == Err(InvalidTransition)
    ensures ParseStatus(requested).Some? && (current == Pending || current == Shipped) ==> r == Ok(ParseStatus(requested).value)
  {
    var target := ParseStatus(requested);
    if target.None? then Err(InvalidInput)
    else if current == Cancelled || current == Delivered then Err(InvalidTransition)
    else Ok(target.value)
  }

  /** `findByOrderId(orderId)`: the lines of one order, in table order. */
  function LinesOf(lines: seq<OrderItem>, orderId: nat): seq<OrderItem>
    decreases |lines|
  {
    if lines == [] then []
    else
      var l := lines[|lines| - 1];
      LinesOf(lines[..|lines| - 1], orderId) + (if l.orderId == orderId then [l] else [])
  }

  datatype Restocked = Restocked(products: Catalog, failure: Option<Error>)

  /** The loop of `_handleCancellation`: each line's quantity goes back to
      its product through `updateStock`; the first failure stops the loop,
      keeping the increments already made. */
  function Restock(c: Catalog, ls: seq<OrderItem>): (r: Restocked)
    ensures r.products.Keys == c.Keys
    ensures forall pid :: pid in c ==> r.products[pid] == c[pid].(stock := r.products[pid].stock)
    ensures ValidCatalog(c) ==> ValidCatalog(r.products)
    decreases |ls|
  {
    if ls == [] then Restocked(c, None)
    else RestockStep(Restock(c, ls[..|ls| - 1]), ls[|ls| - 1])
  }

  /** One iteration of the restoration loop. */
  function RestockStep(prev: Restocked, l: OrderItem): (r: Restocked)
    ensures prev.failure.Some? ==> r == prev
    ensures r.products.Keys == prev.products.Keys
    ensures forall pid :: pid in prev.products ==> r.products[pid] == prev.products[pid].(stock := r.products[pid].stock)
    ensures ValidCatalog(prev.products) ==> ValidCatalog(r.products)
  {
    if prev.failure.Some? then prev
    else
      match ApplyStockDelta(prev.products, l.productId, l.quantity)
      case Err(e) => Restocked(prev.products, Some(e))
      case Ok(next) => Restocked(next, None)
  }

  lemma RestockNext(c: Catalog, ls: seq<OrderItem>, i: nat)
    requires i < |ls|
    ensures Restock(c, ls[..i + 1]) == RestockStep(Restock(c, ls[..i]), ls[i])
  {
    assert ls[..i + 1][..i] == ls[..i];
  }

  lemma {:induction false} RestockFailureSticks(c: Catalog, ls: seq<OrderItem>, j: nat)
    requires j <= |ls| && Restock(c, ls[..j]).failure.Some?
    ensures Restock(c, ls) == Restock(c, ls[..j])
    decreases |ls| - j
  {
    if j < |ls| {
      RestockNext(c, ls, j);
      RestockFailureSticks(c, ls, j + 1);
    } else {
      assert ls[..j] == ls;
    }
  }

  /** Units of `pid` over some order lines. */
  function LineQuantity(ls: seq<OrderItem>, pid: ProductId): int
    decreases |ls|
  {
    if ls == [] then 0
    else
      var l := ls[|ls| - 1];
      LineQuantity(ls[..|ls| - 1], pid) + (if l.productId == pid then l.quantity else 0)
  }

  /** When every line's product exists, restoration cannot fail, and each
      product's stock grows by exactly the quantity its lines hold. */
  lemma {:induction false} RestockExact(c: Catalog, ls: seq<OrderItem>)
    requires ValidCatalog(c)
    requires forall k :: 0 <= k < |ls| ==> ls[k].productId in c && ls[k].quantity >= 1
    ensures Restock(c, ls).failure.None?
    ensures forall pid :: pid in c ==> Restock(c, ls).products[pid].stock == c[pid].stock + LineQuantity(ls, pid)
    decreases |ls|
  {
    if ls != [] {
      RestockExact(c, ls[..|ls| - 1]);
    }
  }

  lemma {:induction false} LinesOfAll(ls: seq<OrderItem>, orderId: nat)
    requires forall k :: 0 <= k < |ls| ==> ls[k].orderId == orderId
    ensures LinesOf(ls, orderId) == ls
    decreases |ls|
  {
    if ls != [] {
      LinesOfAll(ls[..|ls| - 1], orderId);
      assert ls == ls[..|ls| - 1] + [ls[|ls| - 1]];
    }
  }

  lemma {:induction false} LinesOfNone(ls: seq<OrderItem>, orderId: nat)
    requires forall k :: 0 <= k < |ls| ==> ls[k].orderId != orderId
    ensures LinesOf(ls, orderId) == []
    decreases |ls|
  {
    if ls != [] {
      LinesOfNone(ls[..|ls| - 1], orderId);
    }
  }

  /** The lines of an order are exactly the table's lines that carry its id. */
  lemma {:induction false} LinesOfMembers(ls: seq<OrderItem>, orderId: nat)
    ensures forall l :: l in LinesOf(ls, orderId) <==> l in ls && l.orderId == orderId
    decreases |ls|
  {
    if ls != [] {
      var n := |ls| - 1;
      LinesOfMembers(ls[..n], orderId);
      assert ls == ls[..n] + [ls[n]];
    }
  }

  lemma {:induction false} LinesOfAppend(a: seq<OrderItem>, b: seq<OrderItem>, orderId: nat)
    ensures LinesOf(a + b, orderId) == LinesOf(a, orderId) + LinesOf(b, orderId)
    decreases |b|
  {
    if b == [] {
      assert a + b == a;
    } else {
      var n := |b| - 1;
      LinesOfAppend(a, b[..n], orderId);
      assert (a + b)[..|a + b| - 1] == a + b[..n];
    }
  }

  lemma {:induction false} LineQuantityOfWritten(c: Catalog, orderId: nat, items: seq<ItemRequest>, pid: ProductId)
    requires WriteLines(c, orderId, items).failure.None?
    ensures LineQuantity(WriteLines(c, orderId, items).lines, pid) == TotalQuantity(items, pid)
    decreases |items|
  {
    if items != [] {
      var n := |items| - 1;
      var prev := WriteLines(c, orderId, items[..n]);
      var w := WriteLines(c, orderId, items);
      assert w == WriteStep(prev, orderId, items[n]);
      assert prev.failure.None?;
      WriteStepShape(prev, orderId, items[n]);
      LineQuantityOfWritten(c, orderId, items[..n], pid);
      assert w.lines[..|w.lines| - 1] == prev.lines;
    }
  }

  /** Cancelling an order that was placed in full gives back the catalog
      exactly as it was before the order. */
  lemma CancelUndoesCreate(c: Catalog, orderId: nat, items: seq<ItemRequest>, earlier: seq<OrderItem>)
    requires ValidCatalog(c)
    requires forall i :: 0 <= i < |items| ==> items[i].productId in c && items[i].quantity >= 1
    requires forall i :: 0 <= i < |items| ==> TotalQuantity(items, items[i].productId) <= c[items[i].productId].stock
    requires forall k :: 0 <= k < |earlier| ==> earlier[k].orderId != orderId
    ensures var w := WriteLines(c, orderId, items);
            && w.failure.None?
            && Restock(w.products, LinesOf(earlier + w.lines, orderId)) == Restocked(c, None)
  {
    var w := WriteLines(c, orderId, items);
    WriteLinesExact(c, orderId, items);
    WriteLinesRows(c, orderId, items);
    WriteLinesCatalog(c, orderId, items);
    LinesOfAppend(earlier, w.lines, orderId);
    LinesOfNone(earlier, orderId);
    LinesOfAll(w.lines, orderId);
    assert LinesOf(earlier + w.lines, orderId) == w.lines;
    RestockExact(w.products, w.lines);
    var back := Restock(w.products, w.lines).products;
    forall pid | pid in c ensures back[pid] == c[pid] {
      LineQuantityOfWritten(c, orderId, items, pid);
    }
    assert back == c;
  }

  // ---------------------------------------------------------------------------
  // The sales report

  datatype TopSeller = TopSeller(productId: ProductId, totalSold: int, totalRevenue: int)

  datatype SalesReport = SalesReport(
    startDate: int,
    endDate: int,
    totalSales: int,
    orderCount: nat,
    averageOrderValue: real,
    topSellingProducts: seq<TopSeller>)

  /** `findByDateRange(startDate, endDate)`: creation time between the two, inclusive. */
  function InDateRange(orders: seq<Order>, startDate: int, endDate: int): (r: seq<Order>)
    ensures forall o :: o in r <==> o in orders && startDate <= o.createdAt <= endDate
  {
    if orders == [] then []
    else
      (if startDate <= orders[0].createdAt <= endDate then [orders[0]] else [])
      + InDateRange(orders[1..], startDate, endDate)
  }

  function SumTotals(orders: seq<Order>): int
    decreases |orders|
  {
    if orders == [] then 0 else SumTotals(orders[..|orders| - 1]) + orders[|orders| - 1].total
  }

  lemma {:induction false} SumTotalsNonNeg(orders: seq<Order>)
    ensures (forall k :: 0 <= k < |orders| ==> orders[k].total >= 0) ==> SumTotals(orders) >= 0
    decreases |orders|
  {
    if orders != [] {
      var n := |orders| - 1;
      SumTotalsNonNeg(orders[..n]);
      assert forall k :: 0 <= k < n ==> orders[..n][k] == orders[k];
    }
  }

  /** `getSalesReport` over the fetched orders. `topProducts` is what the
      grouped aggregation returned, `None` when it threw. */
  function BuildReport(fetched: seq<Order>, startDate: int, endDate: int, topProducts: Option<seq<TopSeller>>): (r: SalesReport)
    ensures r.orderCount == |fetched| && r.totalSales == SumTotals(fetched)
    ensures fetched == [] ==> r.totalSales == 0 && r.averageOrderValue == 0.0 && r.topSellingProducts == []
    ensures fetched != [] ==> r.averageOrderValue * (|fetched| as real) == r.totalSales as real
    ensures topProducts.None? ==> r.topSellingProducts == []
    ensures fetched != [] && topProducts.Some? ==> r.topSellingProducts == topProducts.value
    ensures (forall k :: 0 <= k < |fetched| ==> fetched[k].total >= 0) ==> r.totalSales >= 0 && r.averageOrderValue >= 0.0
  {
    var totalSales := SumTotals(fetched);
    var orderCount := |fetched|;
    var top := if orderCount > 0 && topProducts.Some? then topProducts.value else [];
    SumTotalsNonNeg(fetched);
    SalesReport(startDate, endDate, totalSales, orderCount,
                if orderCount > 0 then (totalSales as real) / (orderCount as real) else 0.0, top)
  }

  // ---------------------------------------------------------------------------
  // The service object

  /** Order `i + 1` sits at index `i`, and no order total is negative. */
  ghost predicate Numbered(orders: seq<Order>) {
    forall i :: 0 <= i < |orders| ==> orders[i].id == i + 1 && orders[i].total >= 0
  }

  /** Every line belongs to one of the first `n` orders and has a quantity
      of at least 1. */
  ghost predicate LinesFit(ls: seq<OrderItem>, n: nat) {
    forall k :: 0 <= k < |ls| ==> 1 <= ls[k].orderId <= n && ls[k].quantity >= 1
  }

  /** `OrderService` with the orders table (order `i + 1` at index `i`), the
      order-lines table and the product repository it writes stock through. */
  class OrderService {
    const catalog: ProductRepository
    var orders: seq<Order>
    var lines: seq<OrderItem>

    ghost predicate Valid()
      reads this, catalog
    {
      catalog.Valid() && Numbered(orders) && LinesFit(lines, |orders|)
    }

    constructor (catalog: ProductRepository)
      requires catalog.Valid()
      ensures Valid() && this.catalog == catalog && orders == [] && lines == []
    {
      this.catalog := catalog;
      orders := [];
      lines := [];
    }

    /** The validation loop of `createOrder`: reads the catalog, writes nothing. */
    method ValidateItems(items: seq<ItemRequest>) returns (r: Result<int>)
      requires Valid()
      ensures r == Validate(catalog.products, items)
    {
      var total := 0;
      for i := 0 to |items|
        invariant Validate(catalog.products, items[..i]) == Ok(total)
      {
        var item := items[i];
        assert items[..i + 1][..i] == items[..i];
        var product := catalog.FindById(item.productId);
        if product.None? {
          ValidateErrSticks(catalog.products, items, i + 1);
          return Err(NotFound(MissingProduct, item.productId));
        }
        if product.value.stock < item.quantity {
          ValidateErrSticks(catalog.products, items, i + 1);
          return Err(InsufficientStock(item.productId));
        }
        total := total + product.value.price * item.quantity;
      }
      assert items[..|items|] == items;
      r := Ok(total);
    }

    /** One pass of the write loop of `createOrder`: read the product,
        insert the line at its current price, then decrement its stock. */
    method WriteItem(orderId: nat, item: ItemRequest, ghost table: seq<OrderItem>, ghost prev: Written)
        returns (failure: Option<Error>)
      requires catalog.Valid() && 1 <= orderId && LinesFit(lines, orderId)
      requires prev.failure.None? && catalog.products == prev.products && lines == table + prev.lines
      modifies this, catalog
      ensures catalog.Valid() && LinesFit(lines, orderId)
      ensures orders == old(orders)
      ensures var w := WriteStep(prev, orderId, item);
              && lines == table + w.lines
              && catalog.products == w.products
              && failure == w.failure
    {
      var product := catalog.FindById(item.productId);
      if product.None? {
        return Some(Internal);
      }
      if item.quantity < 1 {
        return Some(InvalidInput);
      }
      var price := product.value.price;
      var line := OrderItem(orderId, item.productId, price, item.quantity, price * item.quantity);
      lines := lines + [line];
      assert lines == table + (prev.lines + [line]);
      var updated := catalog.UpdateStock(item.productId, -item.quantity);
      failure := if updated.Err? then Some(updated.error) else None;
    }

    /** The write loop of `createOrder` for the order `orderId`, which the
        caller has just appended to the orders table. */
    method WriteItems(orderId: nat, items: seq<ItemRequest>) returns (failure: Option<Error>)
      requires Valid() && orderId == |orders| && orderId >= 1
      modifies this, catalog
      ensures Valid()
      ensures orders == old(orders)
      ensures var w := WriteLines(old(catalog.products), orderId, items);
              && lines == old(lines) + w.lines
              && catalog.products == w.products
              && failure == w.failure
    {
      ghost var c := catalog.products;
      ghost var written := Written(c, [], None);
      for i := 0 to |items|
        invariant orders == old(orders)
        invariant catalog.Valid()
        invariant written == WriteLines(c, orderId, items[..i])
        invariant written.failure.None?
        invariant catalog.products == written.products
        invariant lines == old(lines) + written.lines
        invariant LinesFit(lines, orderId)
      {
        WriteLinesNext(c, orderId, items, i);
        var f := WriteItem(orderId, items[i], old(lines), written);
        written := WriteStep(written, orderId, items[i]);
        if f.Some? {
          WriteLinesFailureSticks(c, orderId, items, i + 1);
          return f;
        }
      }
      assert items[..|items|] == items;
      failure := None;
    }

    /** `createOrder({userId, items})`, as written: `now` is the creation
        time the store stamps on the order. */
    method CreateOrder(userId: int, items: seq<ItemRequest>, now: int) returns (r: Result<Order>)
      requires Valid()
      modifies this, catalog
      ensures Valid()
      ensures Validate(old(catalog.products), items).Err? ==>
                && r == Err(Validate(old(catalog.products), items).error)
                && orders == old(orders) && lines == old(lines) && catalog.products == old(catalog.products)
      ensures Validate(old(catalog.products), items).Ok? && Validate(old(catalog.products), items).value < 0 ==>
                && r == Err(InvalidInput)
                && orders == old(orders) && lines == old(lines) && catalog.products == old(catalog.products)
      ensures Validate(old(catalog.products), items).Ok? && Validate(old(catalog.products), items).value >= 0 ==>
                var order := Order(|old(orders)| + 1, userId, Validate(old(catalog.products), items).value, Pending, now);
                var w := WriteLines(old(catalog.products), order.id, items);
                && orders == old(orders) + [order]
                && lines == old(lines) + w.lines
                && catalog.products == w.products
                && r == (if w.failure.None? then Ok(order) else Err(w.failure.value))
    {
      var validated := ValidateItems(items);
      if validated.Err? {
        return Err(validated.error);
      }
      if validated.value < 0 {
        return Err(InvalidInput);
      }
      var order := Order(|orders| + 1, userId, validated.value, Pending, now);
      orders := orders + [order];
      var failure := WriteItems(order.id, items);
      r := if failure.None? then Ok(order) else Err(failure.value);
    }

    /** `createOrder` with the rollback the source intends: the state is
        saved before the call and restored when it fails, so a failed
        placement leaves no trace. */
    method CreateOrderAtomic(userId: int, items: seq<ItemRequest>, now: int) returns (r: Result<Order>)
      requires Valid()
      modifies this, catalog
      ensures Valid()
      ensures r.Err? ==> orders == old(orders) && lines == old(lines) && catalog.products == old(catalog.products)
      ensures r.Ok? <==>
                && Validate(old(catalog.products), items).Ok?
                && Validate(old(catalog.products), items).value >= 0
                && WriteLines(old(catalog.products), |old(orders)| + 1, items).failure.None?
      ensures r.Ok? ==>
                && r.value == Order(|old(orders)| + 1, userId, Validate(old(catalog.products), items).value, Pending, now)
                && orders == old(orders) + [r.value]
                && lines == old(lines) + WriteLines(old(catalog.products), r.value.id, items).lines
                && catalog.products == WriteLines(old(catalog.products), r.value.id, items).products
    {
      var savedProducts, savedOrders, savedLines := catalog.products, orders, lines;
      r := CreateOrder(userId, items, now);
      if r.Err? {
        catalog.products, orders, lines := savedProducts, savedOrders, savedLines;
      }
    }

    /** The post-state of `updateOrderStatus(orderId, status)`. */
    twostate predicate StatusUpdated(orderId: int, status: string, new r: Result<Order>)
      reads this, catalog
    {
      if !(1 <= orderId <= |old(orders)|) then
        r == Err(NotFound(MissingOrder, orderId))
        && orders == old(orders) && lines == old(lines) && catalog.products == old(catalog.products)
      else
        var order := old(orders)[orderId - 1];
        var t := CheckTransition(order.status, status);
        if t.Err? then
          r == Err(t.error)
          && orders == old(orders) && lines == old(lines) && catalog.products == old(catalog.products)
        else if t.value != Cancelled then
          r == Ok(order.(status := t.value))
          && orders == old(orders)[orderId - 1 := r.value] && lines == old(lines)
          && catalog.products == old(catalog.products)
        else
          var rs := Restock(old(catalog.products), LinesOf(old(lines), orderId));
          catalog.products == rs.products && lines == old(lines)
          && (rs.failure.Some? ==> r == Err(rs.failure.value) && orders == old(orders))
          && (rs.failure.None? ==> r == Ok(order.(status := Cancelled)) && orders == old(orders)[orderId - 1 := r.value])
    }

    /** `updateOrderStatus(orderId, status)` */
    method UpdateOrderStatus(orderId: int, status: string) returns (r: Result<Order>)
      requires Valid()
      modifies this, catalog
      ensures Valid()
      ensures StatusUpdated(orderId, status, r)
    {
      if !(1 <= orderId <= |orders|) {
        return Err(NotFound(MissingOrder, orderId));
      }
      var order := orders[orderId - 1];
      var target := ParseStatus(status);
      if target.None? {
        return Err(InvalidInput);
      }
      if order.status == Cancelled || order.status == Delivered {
        return Err(InvalidTransition);
      }
      if target.value == Cancelled && order.status != Cancelled {
        var failure := HandleCancellation(orderId);
        if failure.Some? {
          return Err(failure.value);
        }
      }
      order := order.(status := target.value);
      orders := orders[orderId - 1 := order];
      r := Ok(order);
    }

    /** `cancelOrder(orderId)`: the same as asking for status "cancelled". */
    method CancelOrder(orderId: int) returns (r: Result<Order>)
      requires Valid()
      modifies this, catalog
      ensures Valid()
      ensures StatusUpdated(orderId, "cancelled", r)
      ensures r.Ok? ==> 1 <= orderId <= |orders| && orders[orderId - 1].status == Cancelled
    {
      r := UpdateOrderStatus(orderId, "cancelled");
    }

    /** `_handleCancellation(order)`: give each line's quantity back to its
        product, stopping at the first failure. */
    method HandleCancellation(orderId: int) returns (failure: Option<Error>)
      requires Valid() && 1 <= orderId
      modifies catalog
      ensures Valid()
      ensures catalog.products == Restock(old(catalog.products), LinesOf(lines, orderId)).products
      ensures failure == Restock(old(catalog.products), LinesOf(lines, orderId)).failure
    {
      ghost var c := catalog.products;
      var orderLines := LinesOf(lines, orderId);
      for i := 0 to |orderLines|
        invariant catalog.Valid()
        invariant Restock(c, orderLines[..i]).failure.None?
        invariant catalog.products == Restock(c, orderLines[..i]).products
      {
        RestockNext(c, orderLines, i);
        var updated := catalog.UpdateStock(orderLines[i].productId, orderLines[i].quantity);
        if updated.Err? {
          RestockFailureSticks(c, orderLines, i + 1);
          return Some(updated.error);
        }
      }
      assert orderLines[..|orderLines|] == orderLines;
      failure := None;
    }

    /** `getSalesReport(startDate, endDate)` over the orders table. */
    function GetSalesReport(startDate: int, endDate: int, topProducts: Option<seq<TopSeller>>): (r: SalesReport)
      requires Valid()
      reads this, catalog
      ensures r.totalSales >= 0 && r.averageOrderValue >= 0.0
      ensures r.orderCount == |InDateRange(orders, startDate, endDate)|
    {
      var fetched := InDateRange(orders, startDate, endDate);
      assert forall k :: 0 <= k < |fetched| ==> fetched[k] in orders;
      BuildReport(fetched, startDate, endDate, topProducts)
    }
  }
}
