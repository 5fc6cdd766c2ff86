/** The per-user, in-memory shopping cart of `CartService`. Each operation
    is given first as a function on cart values (what the operation
    computes) and then as a method of the `CartService` class that updates
    the `carts` map the way the source does. Product lookups read the
    catalog, passed in as a value. */
module Carts {
  import opened Results
  import opened Products

  type UserId = int

  /** A cart line: the product reference plus a snapshot of its name,
      price and stock, and the requested quantity. */
  datatype CartItem = CartItem(productId: ProductId, name: string, price: int, quantity: int, currentStock: int)

  datatype Cart = Cart(items: seq<CartItem>, total: int)

  const EmptyCart := Cart([], 0)

  /** `_calculateTotal(items)`: price times quantity, summed left to right. */
  function Total(items: seq<CartItem>): int
    decreases |items|
  {
    if items == [] then 0
    else Total(items[..|items| - 1]) + items[|items| - 1].price * items[|items| - 1].quantity
  }

  /** How many units of `pid` the cart holds over all its lines. */
  function QuantityOf(items: seq<CartItem>, pid: ProductId): int
    decreases |items|
  {
    if items == [] then 0
    else QuantityOf(items[..|items| - 1], pid) + (if items[|items| - 1].productId == pid then items[|items| - 1].quantity else 0)
  }

  /** `items.find(i => i.productId === pid)`, as an index; -1 when absent. */
  function LineIndex(items: seq<CartItem>, pid: ProductId): (k: int)
    ensures -1 <= k < |items|
    ensures k >= 0 ==> items[k].productId == pid && forall j :: 0 <= j < k ==> items[j].productId != pid
    ensures k == -1 ==> forall j :: 0 <= j < |items| ==> items[j].productId != pid
  {
    if items == [] then -1
    else if items[0].productId == pid then 0
    else
      var k := LineIndex(items[1..], pid);
      if k == -1 then -1 else k + 1
  }

  ghost predicate UniqueLines(items: seq<CartItem>) {
    forall i, j :: 0 <= i < j < |items| ==> items[i].productId != items[j].productId
  }

  ghost predicate PositiveQuantities(items: seq<CartItem>) {
    forall i :: 0 <= i < |items| ==> items[i].quantity >= 1
  }

  /** What every stored cart satisfies: the total is derived from the
      lines, one line per product, every quantity at least 1. */
  ghost predicate ValidCart(c: Cart) {
    c.total == Total(c.items) && UniqueLines(c.items) && PositiveQuantities(c.items)
  }

  /** Lines with non-negative prices and quantities have a non-negative total. */
  lemma {:induction false} TotalNonNeg(items: seq<CartItem>)
    requires forall i :: 0 <= i < |items| ==> items[i].price >= 0 && items[i].quantity >= 0
    ensures Total(items) >= 0
    decreases |items|
  {
    if items != [] {
      var n := |items| - 1;
      TotalNonNeg(items[..n]);
      assert items[n].price * items[n].quantity >= 0;
    }
  }

  /** The total of two runs of lines is the sum of their totals. */
  lemma {:induction false} TotalConcat(a: seq<CartItem>, b: seq<CartItem>)
    ensures Total(a + b) == Total(a) + Total(b)
    decreases |b|
  {
    if b == [] {
      assert a + b == a;
    } else {
      var n := |b| - 1;
      TotalConcat(a, b[..n]);
      assert (a + b)[..|a + b| - 1] == a + b[..n];
    }
  }

  // ---------------------------------------------------------------------------
  // Facts about the bag view

  lemma QuantityOfAppend(items: seq<CartItem>, line: CartItem, pid: ProductId)
    ensures QuantityOf(items + [line], pid) == QuantityOf(items, pid) + (if line.productId == pid then line.quantity else 0)
  {
    assert (items + [line])[..|items|] == items;
  }

  lemma {:induction false} QuantityOfAbsent(items: seq<CartItem>, pid: ProductId)
    requires forall j :: 0 <= j < |items| ==> items[j].productId != pid
    ensures QuantityOf(items, pid) == 0
    decreases |items|
  {
    if items != [] {
      QuantityOfAbsent(items[..|items| - 1], pid);
    }
  }

  /** With one line per product, the quantity of a product is that of its line. */
  lemma {:induction false} QuantityOfUnique(items: seq<CartItem>, k: nat)
    requires k < |items| && UniqueLines(items)
    ensures QuantityOf(items, items[k].productId) == items[k].quantity
    decreases |items|
  {
    var n := |items| - 1;
    if k == n {
      QuantityOfAbsent(items[..n], items[k].productId);
    } else {
      QuantityOfUnique(items[..n], k);
    }
  }

  lemma {:induction false} QuantityOfUpdate(items: seq<CartItem>, k: nat, line: CartItem, pid: ProductId)
    requires k < |items|
    ensures QuantityOf(items[k := line], pid) ==
            QuantityOf(items, pid)
            - (if items[k].productId == pid then items[k].quantity else 0)
            + (if line.productId == pid then line.quantity else 0)
    decreases |items|
  {
    var n := |items| - 1;
    if k < n {
      assert items[k := line][..n] == items[..n][k := line];
      QuantityOfUpdate(items[..n], k, line, pid);
    } else {
      assert items[k := line][..n] == items[..n];
    }
  }

  /** Two line lists that agree on product and quantity, index by index,
      hold the same bag and are both one-line-per-product or neither. */
  lemma {:induction false} SameLines(a: seq<CartItem>, b: seq<CartItem>)
    requires |a| == |b|
    requires forall j :: 0 <= j < |a| ==> a[j].productId == b[j].productId && a[j].quantity == b[j].quantity
    ensures forall pid :: QuantityOf(a, pid) == QuantityOf(b, pid)
    ensures UniqueLines(a) == UniqueLines(b)
    ensures PositiveQuantities(a) == PositiveQuantities(b)
    decreases |a|
  {
    if a != [] {
      SameLines(a[..|a| - 1], b[..|b| - 1]);
    }
  }

  // ---------------------------------------------------------------------------
  // addItem

  /** The argument check of `addItem`: both fields present and truthy, and
      the quantity positive. */
  predicate ValidAddRequest(productId: Option<ProductId>, quantity: Option<int>) {
    productId.Some? && productId.value != 0 && quantity.Some? && quantity.value > 0
  }

  /** `addItem` on a cart value (the stored cart, or an empty one). */
  function AddToCart(cart: Cart, productId: Option<ProductId>, quantity: Option<int>, catalog: Catalog): (r: Result<Cart>)
    ensures !ValidAddRequest(productId, quantity) ==> r == Err(InvalidInput)
    ensures ValidAddRequest(productId, quantity) && productId.value !in catalog ==>
              r == Err(NotFound(MissingProduct, productId.value))
    ensures r.Ok? ==> r.value.total == Total(r.value.items)
    ensures r.Ok? && LineIndex(cart.items, productId.value) == -1 ==>
              var p := catalog[productId.value];
              r.value.items == cart.items + [CartItem(productId.value, p.name, p.price, quantity.value, p.stock)]
    ensures r.Ok? && LineIndex(cart.items, productId.value) >= 0 ==>
              var k := LineIndex(cart.items, productId.value);
              r.value.items == cart.items[k := cart.items[k].(quantity := cart.items[k].quantity + quantity.value)]
  {
    if !ValidAddRequest(productId, quantity) then Err(InvalidInput)
    else
      var pid, q := productId.value, quantity.value;
      if pid !in catalog then Err(NotFound(MissingProduct, pid))
      else
        var product := catalog[pid];
        if product.stock < q then Err(InsufficientStock(pid))
        else
          var k := LineIndex(cart.items, pid);
          if k >= 0 then
            var newQuantity := cart.items[k].quantity + q;
            if product.stock < newQuantity then Err(InsufficientStock(pid))
            else
              var items := cart.items[k := cart.items[k].(quantity := newQuantity)];
              Ok(Cart(items, Total(items)))
          else
            var items := cart.items + [CartItem(pid, product.name, product.price, q, product.stock)];
            Ok(Cart(items, Total(items)))
  }

  /** A successful `addItem` leaves a valid cart valid. */
  lemma AddToCartValid(cart: Cart, pid: ProductId, q: int, catalog: Catalog)
    requires ValidCart(cart) && pid != 0 && q > 0
    ensures AddToCart(cart, Some(pid), Some(q), catalog).Ok? ==> ValidCart(AddToCart(cart, Some(pid), Some(q), catalog).value)
  {
    var r := AddToCart(cart, Some(pid), Some(q), catalog);
    if r.Ok? {
      var items := r.value.items;
      if LineIndex(cart.items, pid) >= 0 {
        assert |items| == |cart.items|;
        assert forall i :: 0 <= i < |items| ==>
                 items[i].productId == cart.items[i].productId && items[i].quantity >= cart.items[i].quantity;
      } else {
        assert items[..|cart.items|] == cart.items;
        assert items[|cart.items|].productId == pid && items[|cart.items|].quantity == q;
      }
    }
  }

  /** `addItem` on a valid cart, seen as a bag: it succeeds exactly when the
      product exists and the cart's quantity of it plus `q` is within stock;
      then that quantity grows by `q`, no other product's quantity moves,
      and the cart stays valid. On failure the error says which check failed. */
  lemma AddToCartBag(cart: Cart, pid: ProductId, q: int, catalog: Catalog)
    requires ValidCart(cart) && ValidCatalog(catalog) && pid != 0 && q > 0
    ensures var r := AddToCart(cart, Some(pid), Some(q), catalog);
      && (r.Ok? <==> pid in catalog && QuantityOf(cart.items, pid) + q <= catalog[pid].stock)
      && (pid !in catalog ==> r == Err(NotFound(MissingProduct, pid)))
      && (pid in catalog && QuantityOf(cart.items, pid) + q > catalog[pid].stock ==> r == Err(InsufficientStock(pid)))
      && (r.Ok? ==> ValidCart(r.value)
                    && QuantityOf(r.value.items, pid) == QuantityOf(cart.items, pid) + q
                    && forall other :: other != pid ==> QuantityOf(r.value.items, other) == QuantityOf(cart.items, other))
  {
    AddToCartValid(cart, pid, q, catalog);
    if pid in catalog {
      var k := LineIndex(cart.items, pid);
      var p := catalog[pid];
      if k >= 0 {
        QuantityOfUnique(cart.items, k);
        var line := cart.items[k].(quantity := cart.items[k].quantity + q);
        forall other ensures QuantityOf(cart.items[k := line], other) ==
            QuantityOf(cart.items, other) + (if other == pid then q else 0) {
          QuantityOfUpdate(cart.items, k, line, other);
        }
      } else {
        QuantityOfAbsent(cart.items, pid);
        var line := CartItem(pid, p.name, p.price, q, p.stock);
        forall other ensures QuantityOf(cart.items + [line], other) ==
            QuantityOf(cart.items, other) + (if other == pid then q else 0) {
          QuantityOfAppend(cart.items, line, other);
        }
      }
    }
  }

  // ---------------------------------------------------------------------------
  // updateItemQuantity

  /** `updateItemQuantity` on the stored cart of `userId` (`None` when the user has none). */
  function UpdateInCart(stored: Option<Cart>, userId: UserId, pid: ProductId, quantity: int, catalog: Catalog): (r: Result<Cart>)
    ensures quantity <= 0 ==> r == Err(InvalidInput)
    ensures quantity > 0 && stored.None? ==> r == Err(NotFound(MissingCart, userId))
    ensures quantity > 0 && stored.Some? && LineIndex(stored.value.items, pid) == -1 ==>
              r == Err(NotFound(MissingCartLine, pid))
    ensures quantity > 0 && stored.Some? && LineIndex(stored.value.items, pid) >= 0 && pid !in catalog ==>
              r == Err(NotFound(MissingProduct, pid))
    ensures quantity > 0 && stored.Some? && LineIndex(stored.value.items, pid) >= 0 && pid in catalog &&
            catalog[pid].stock < quantity ==>
              r == Err(InsufficientStock(pid))
    ensures r.Ok? <==> quantity > 0 && stored.Some? && LineIndex(stored.value.items, pid) >= 0 &&
                       pid in catalog && quantity <= catalog[pid].stock
    ensures r.Ok? ==> r.value.total == Total(r.value.items)
    ensures r.Ok? ==>
              var k := LineIndex(stored.value.items, pid);
              0 <= k && r.value.items == stored.value.items[k := stored.value.items[k].(quantity := quantity, currentStock := catalog[pid].stock)]
  {
    if quantity <= 0 then Err(InvalidInput)
    else if stored.None? then Err(NotFound(MissingCart, userId))
    else
      var items := stored.value.items;
      var k := LineIndex(items, pid);
      if k < 0 then Err(NotFound(MissingCartLine, pid))
      else if pid !in catalog then Err(NotFound(MissingProduct, pid))
      else if catalog[pid].stock < quantity then Err(InsufficientStock(pid))
      else
        var updated := items[k := items[k].(quantity := quantity, currentStock := catalog[pid].stock)];
        Ok(Cart(updated, Total(updated)))
  }

  /** On a valid cart a successful update sets that product's quantity to
      exactly `quantity`, moves no other product, and keeps the cart valid. */
  lemma UpdateInCartBag(cart: Cart, userId: UserId, pid: ProductId, quantity: int, catalog: Catalog)
    requires ValidCart(cart)
    ensures var r := UpdateInCart(Some(cart), userId, pid, quantity, catalog);
      r.Ok? ==> ValidCart(r.value)
                && QuantityOf(r.value.items, pid) == quantity
                && forall other :: other != pid ==> QuantityOf(r.value.items, other) == QuantityOf(cart.items, other)
  {
    var r := UpdateInCart(Some(cart), userId, pid, quantity, catalog);
    if r.Ok? {
      var k := LineIndex(cart.items, pid);
      var line := cart.items[k].(quantity := quantity, currentStock := catalog[pid].stock);
      QuantityOfUnique(cart.items, k);
      forall other ensures QuantityOf(cart.items[k := line], other) ==
          QuantityOf(cart.items, other) + (if other == pid then quantity - cart.items[k].quantity else 0) {
        QuantityOfUpdate(cart.items, k, line, other);
      }
    }
  }

  // ---------------------------------------------------------------------------
  // removeItem

  /** `items.filter(item => item.productId !== pid)` */
  function RemoveLines(items: seq<CartItem>, pid: ProductId): (r: seq<CartItem>)
    ensures |r| <= |items|
    ensures forall k :: 0 <= k < |r| ==> r[k].productId != pid
    decreases |items|
  {
    if items == [] then []
    else
      var last := items[|items| - 1];
      RemoveLines(items[..|items| - 1], pid) + (if last.productId != pid then [last] else [])
  }

  /** The filter keeps exactly the lines of other products. */
  lemma {:induction false} RemoveLinesMembers(items: seq<CartItem>, pid: ProductId)
    ensures forall x :: x in RemoveLines(items, pid) <==> x in items && x.productId != pid
    decreases |items|
  {
    if items != [] {
      var n := |items| - 1;
      RemoveLinesMembers(items[..n], pid);
      assert items == items[..n] + [items[n]];
    }
  }

  /** The filter distributes over concatenation, so it keeps the lines it
      keeps in their original order. */
  lemma {:induction false} RemoveLinesConcat(a: seq<CartItem>, b: seq<CartItem>, pid: ProductId)
    ensures RemoveLines(a + b, pid) == RemoveLines(a, pid) + RemoveLines(b, pid)
    decreases |b|
  {
    if b == [] {
      assert a + b == a;
    } else {
      var n := |b| - 1;
      RemoveLinesConcat(a, b[..n], pid);
      assert (a + b)[..|a + b| - 1] == a + b[..n];
    }
  }

  /** Removing a product that has no line changes nothing. */
  lemma {:induction false} RemoveLinesAbsent(items: seq<CartItem>, pid: ProductId)
    requires forall j :: 0 <= j < |items| ==> items[j].productId != pid
    ensures RemoveLines(items, pid) == items
    decreases |items|
  {
    if items != [] {
      RemoveLinesAbsent(items[..|items| - 1], pid);
      assert items == items[..|items| - 1] + [items[|items| - 1]];
    }
  }

  /** After removal the product is gone and every other product keeps its quantity. */
  lemma {:induction false} RemoveLinesBag(items: seq<CartItem>, pid: ProductId)
    ensures QuantityOf(RemoveLines(items, pid), pid) == 0
    ensures forall other :: other != pid ==> QuantityOf(RemoveLines(items, pid), other) == QuantityOf(items, other)
    decreases |items|
  {
    if items != [] {
      var n := |items| - 1;
      var init, last := items[..n], items[n];
      RemoveLinesBag(init, pid);
      var rest := RemoveLines(init, pid);
      if last.productId != pid {
        assert RemoveLines(items, pid) == rest + [last];
        forall other ensures QuantityOf(rest + [last], other) == QuantityOf(rest, other) + (if last.productId == other then last.quantity else 0) {
          QuantityOfAppend(rest, last, other);
        }
      } else {
        assert RemoveLines(items, pid) == rest;
      }
    }
  }

  /** Removal keeps a valid cart's lines one-per-product and positive. */
  lemma RemoveLinesValid(items: seq<CartItem>, pid: ProductId)
    requires UniqueLines(items) && PositiveQuantities(items)
    ensures UniqueLines(RemoveLines(items, pid)) && PositiveQuantities(RemoveLines(items, pid))
  {
    var r := RemoveLines(items, pid);
    RemoveLinesMembers(items, pid);
    forall i | 0 <= i < |r| ensures r[i].quantity >= 1 {
      assert r[i] in items;
    }
    RemoveLinesUnique(items, pid);
  }

  /** The filter keeps product ids distinct: two lines of the result come
      from two distinct lines of the input. */
  lemma {:induction false} RemoveLinesUnique(items: seq<CartItem>, pid: ProductId)
    requires UniqueLines(items)
    ensures UniqueLines(RemoveLines(items, pid))
    decreases |items|
  {
    if items != [] {
      var n := |items| - 1;
      var init, last := items[..n], items[n];
      RemoveLinesUnique(init, pid);
      var rest := RemoveLines(init, pid);
      if last.productId != pid {
        RemoveLinesMembers(init, pid);
        var r := rest + [last];
        assert RemoveLines(items, pid) == r;
        forall i, j | 0 <= i < j < |r| ensures r[i].productId != r[j].productId {
          if j == |rest| {
            assert r[i] in init;
            var i' :| 0 <= i' < n && init[i'] == r[i];
            assert items[i'] == r[i];
          } else {
            assert r[i] == rest[i] && r[j] == rest[j];
          }
        }
      } else {
        assert RemoveLines(items, pid) == rest;
      }
    }
  }

  /** `removeItem` on the stored cart of `userId`. */
  function RemoveFromCart(stored: Option<Cart>, userId: UserId, pid: ProductId): (r: Result<Cart>)
    ensures r.Err? <==> stored.None?
    ensures r.Err? ==> r.error == NotFound(MissingCart, userId)
    ensures r.Ok? ==> r.value.total == Total(r.value.items)
    ensures r.Ok? ==> forall x :: x in r.value.items <==> x in stored.value.items && x.productId != pid
  {
    if stored.None? then Err(NotFound(MissingCart, userId))
    else
      RemoveLinesMembers(stored.value.items, pid);
      var items := RemoveLines(stored.value.items, pid);
      Ok(Cart(items, Total(items)))
  }

  /** Removing twice is removing once. */
  lemma {:induction false} RemoveLinesIdempotent(items: seq<CartItem>, pid: ProductId)
    ensures RemoveLines(RemoveLines(items, pid), pid) == RemoveLines(items, pid)
    decreases |items|
  {
    if items != [] {
      var n := |items| - 1;
      RemoveLinesIdempotent(items[..n], pid);
      var rest := RemoveLines(items[..n], pid);
      if items[n].productId != pid {
        assert RemoveLines(items, pid) == rest + [items[n]];
        RemoveLinesConcat(rest, [items[n]], pid);
        assert RemoveLines([items[n]], pid) == [items[n]];
      } else {
        assert RemoveLines(items, pid) == rest;
      }
    }
  }

  lemma RemoveFromCartIdempotent(cart: Cart, userId: UserId, pid: ProductId)
    ensures var r := RemoveFromCart(Some(cart), userId, pid);
            r.Ok? && RemoveFromCart(Some(r.value), userId, pid) == r
  {
    RemoveLinesIdempotent(cart.items, pid);
  }

  /** Adding a product the cart does not hold and then removing it gives
      back the cart, so in particular its total. */
  lemma AddThenRemove(cart: Cart, userId: UserId, pid: ProductId, q: int, catalog: Catalog)
    requires ValidCart(cart)
    requires LineIndex(cart.items, pid) == -1
    requires AddToCart(cart, Some(pid), Some(q), catalog).Ok?
    ensures RemoveFromCart(Some(AddToCart(cart, Some(pid), Some(q), catalog).value), userId, pid) == Ok(cart)
  {
    var p := catalog[pid];
    var line := CartItem(pid, p.name, p.price, q, p.stock);
    assert AddToCart(cart, Some(pid), Some(q), catalog).value.items == cart.items + [line];
    RemoveLinesConcat(cart.items, [line], pid);
    assert RemoveLines([line], pid) == [];
    RemoveLinesAbsent(cart.items, pid);
    assert RemoveLines(cart.items + [line], pid) == cart.items;
  }

  // ---------------------------------------------------------------------------
  // getCart

  /** The snapshot refresh of one line: overwritten from the catalog when the
      product is found, left stale otherwise. */
  function RefreshLine(item: CartItem, catalog: Catalog): (r: CartItem)
    ensures r.productId == item.productId && r.quantity == item.quantity
    ensures item.productId !in catalog ==> r == item
    ensures item.productId in catalog ==>
              var p := catalog[item.productId];
              r.name == p.name && r.price == p.price && r.currentStock == p.stock
  {
    if item.productId in catalog then
      var p := catalog[item.productId];
      item.(name := p.name, price := p.price, currentStock := p.stock)
    else item
  }

  /** What `getCart` makes of a stored cart: a cart without lines is left as
      it is; otherwise every line is refreshed and the total recomputed. */
  function RefreshCart(cart: Cart, catalog: Catalog): (r: Cart)
    ensures |r.items| == |cart.items|
    ensures forall j :: 0 <= j < |cart.items| ==> r.items[j] == RefreshLine(cart.items[j], catalog)
    ensures cart.items != [] ==> r.total == Total(r.items)
  {
    if cart.items == [] then cart
    else
      var items := seq(|cart.items|, j requires 0 <= j < |cart.items| => RefreshLine(cart.items[j], catalog));
      Cart(items, Total(items))
  }

  /** Refreshing keeps a cart valid and holding the same products in the
      same quantities. */
  lemma RefreshCartValid(cart: Cart, catalog: Catalog)
    requires ValidCart(cart)
    ensures ValidCart(RefreshCart(cart, catalog))
    ensures forall pid :: QuantityOf(RefreshCart(cart, catalog).items, pid) == QuantityOf(cart.items, pid)
  {
    SameLines(cart.items, RefreshCart(cart, catalog).items);
  }

  // ---------------------------------------------------------------------------
  // The service object

  /** `CartService`: the `carts` map from user id to cart. */
  class CartService {
    var carts: map<UserId, Cart>

    ghost predicate Valid()
      reads this
    {
      forall u :: u in carts ==> ValidCart(carts[u])
    }

    constructor ()
      ensures Valid() && carts == map[]
    {
      carts := map[];
    }

    /** The stored cart of `userId`, or `None`. */
    function Stored(userId: UserId): (r: Option<Cart>)
      reads this
      ensures r.Some? <==> userId in carts
      ensures r.Some? ==> r.value == carts[userId]
    {
      if userId in carts then Some(carts[userId]) else None
    }

    /** `getCart(userId)`: an unknown user gets an empty cart that is not
        stored; a stored cart has its line snapshots refreshed in place. */
    method GetCart(userId: UserId, catalog: Catalog) returns (cart: Cart)
      requires Valid()
      modifies this
      ensures Valid()
      ensures userId !in old(carts) ==> cart == EmptyCart && carts == old(carts)
      ensures userId in old(carts) ==>
                cart == RefreshCart(old(carts)[userId], catalog) && carts == old(carts)[userId := cart]
    {
      if userId !in carts {
        return EmptyCart;
      }
      cart := carts[userId];
      if |cart.items| > 0 {
        var items := cart.items;
        for i := 0 to |items|
          invariant |items| == |cart.items|
          invariant forall j :: 0 <= j < i ==> items[j] == RefreshLine(cart.items[j], catalog)
          invariant forall j :: i <= j < |items| ==> items[j] == cart.items[j]
        {
          var pid := items[i].productId;
          if pid in catalog {
            var product := catalog[pid];
            items := items[i := items[i].(name := product.name, price := product.price, currentStock := product.stock)];
          }
        }
        RefreshCartValid(cart, catalog);
        assert items == RefreshCart(cart, catalog).items;
        cart := Cart(items, Total(items));
        carts := carts[userId := cart];
      }
    }

    /** `addItem(userId, {productId, quantity})` */
    method AddItem(userId: UserId, productId: Option<ProductId>, quantity: Option<int>, catalog: Catalog)
      returns (r: Result<Cart>)
      requires Valid() && ValidCatalog(catalog)
      modifies this
      ensures Valid()
      ensures r == AddToCart(if userId in old(carts) then old(carts)[userId] else EmptyCart, productId, quantity, catalog)
      ensures carts == if r.Ok? then old(carts)[userId := r.value] else old(carts)
    {
      if productId.None? || productId.value == 0 || quantity.None? || quantity.value <= 0 {
        return Err(InvalidInput);
      }
      var pid, q := productId.value, quantity.value;
      if pid !in catalog {
        return Err(NotFound(MissingProduct, pid));
      }
      var product := catalog[pid];
      if product.stock < q {
        return Err(InsufficientStock(pid));
      }
      var cart := if userId in carts then carts[userId] else EmptyCart;
      var k := LineIndex(cart.items, pid);
      var items := cart.items;
      if k >= 0 {
        var newQuantity := items[k].quantity + q;
        if product.stock < newQuantity {
          return Err(InsufficientStock(pid));
        }
        items := items[k := items[k].(quantity := newQuantity)];
      } else {
        items := items + [CartItem(pid, product.name, product.price, q, product.stock)];
      }
      var added := Cart(items, Total(items));
      assert Ok(added) == AddToCart(cart, productId, quantity, catalog);
      AddToCartValid(cart, pid, q, catalog);
      carts := carts[userId := added];
      r := Ok(added);
    }

    /** `updateItemQuantity(userId, productId, quantity)` */
    method UpdateItemQuantity(userId: UserId, pid: ProductId, quantity: int, catalog: Catalog)
      returns (r: Result<Cart>)
      requires Valid()
      modifies this
      ensures Valid()
      ensures r == UpdateInCart(old(Stored(userId)), userId, pid, quantity, catalog)
      ensures carts == if r.Ok? then old(carts)[userId := r.value] else old(carts)
    {
      if quantity <= 0 {
        return Err(InvalidInput);
      }
      if userId !in carts {
        return Err(NotFound(MissingCart, userId));
      }
      var cart := carts[userId];
      var k := LineIndex(cart.items, pid);
      if k < 0 {
        return Err(NotFound(MissingCartLine, pid));
      }
      if pid !in catalog {
        return Err(NotFound(MissingProduct, pid));
      }
      var product := catalog[pid];
      if product.stock < quantity {
        return Err(InsufficientStock(pid));
      }
      UpdateInCartBag(cart, userId, pid, quantity, catalog);
      var items := cart.items[k := cart.items[k].(quantity := quantity, currentStock := product.stock)];
      cart := Cart(items, Total(items));
      carts := carts[userId := cart];
      r := Ok(cart);
    }

    /** `removeItem(userId, productId)` */
    method RemoveItem(userId: UserId, pid: ProductId) returns (r: Result<Cart>)
      requires Valid()
      modifies this
      ensures Valid()
      ensures r == RemoveFromCart(old(Stored(userId)), userId, pid)
      ensures carts == if r.Ok? then old(carts)[userId := r.value] else old(carts)
    {
      if userId !in carts {
        return Err(NotFound(MissingCart, userId));
      }
      var cart := carts[userId];
      RemoveLinesValid(cart.items, pid);
      var items := RemoveLines(cart.items, pid);
      cart := Cart(items, Total(items));
      carts := carts[userId := cart];
      r := Ok(cart);
    }

    /** `clearCart(userId)`: always succeeds, storing an empty cart. */
    method ClearCart(userId: UserId) returns (cart: Cart)
      requires Valid()
      modifies this
      ensures Valid()
      ensures cart == EmptyCart && carts == old(carts)[userId := EmptyCart]
    {
      cart := EmptyCart;
      carts := carts[userId := cart];
    }
  }
}
