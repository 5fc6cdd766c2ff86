/** The product catalog and the stock arithmetic of `ProductRepository`.
    Prices are integer cents (the column is DECIMAL(10,2)). */
module Products {
  import opened Results

  type ProductId = int

  datatype Product = Product(
    id: ProductId,
    name: string,
    description: string,
    price: int,     // cents
    stock: int,
    category: string)

  /** The products table, keyed by primary key. */
  type Catalog = map<ProductId, Product>

  /** Column constraints of the products table: price at least 0.01 and
      stock never negative. */
  ghost predicate ValidProduct(p: Product) {
    p.price >= 1 && p.stock >= 0
  }

  ghost predicate ValidCatalog(c: Catalog) {
    forall id :: id in c ==> c[id].id == id && ValidProduct(c[id])
  }

  /** `updateStock(id, quantity)` on the table: not-found for an unknown id,
      insufficient stock when the new stock would be negative, otherwise
      exactly that product's stock moves by `delta`. */
  function ApplyStockDelta(c: Catalog, id: ProductId, delta: int): (r: Result<Catalog>)
    ensures id !in c ==> r == Err(NotFound(MissingProduct, id))
    ensures id in c && c[id].stock + delta < 0 ==> r == Err(InsufficientStock(id))
    ensures r.Ok? <==> id in c && c[id].stock + delta >= 0
    ensures r.Ok? ==> r.value.Keys == c.Keys
    ensures r.Ok? ==> r.value[id] == c[id].(stock := c[id].stock + delta)
    ensures r.Ok? ==> forall other :: other in c && other != id ==> r.value[other] == c[other]
    ensures r.Ok? && ValidCatalog(c) ==> ValidCatalog(r.value)
  {
    if id !in c then Err(NotFound(MissingProduct, id))
    else if c[id].stock + delta < 0 then Err(InsufficientStock(id))
    else Ok(c[id := c[id].(stock := c[id].stock + delta)])
  }

  /** The `where` clause of `findInStock`. */
  predicate InStock(p: Product) {
    p.stock > 0
  }

  /** The `where` clause of `findLowStock(threshold)`. */
  predicate LowStock(p: Product, threshold: int) {
    0 < p.stock <= threshold
  }

  /** `findInStock()` over the rows of the table. */
  function FindInStock(rows: seq<Product>): (r: seq<Product>)
    ensures forall p :: p in r <==> p in rows && p.stock > 0
    ensures |r| <= |rows|
  {
    if rows == [] then []
    else (if InStock(rows[0]) then [rows[0]] else []) + FindInStock(rows[1..])
  }

  /** `findLowStock(threshold)` over the rows of the table. */
  function FindLowStock(rows: seq<Product>, threshold: int): (r: seq<Product>)
    ensures forall p :: p in r <==> p in rows && 0 < p.stock <= threshold
    ensures |r| <= |rows|
  {
    if rows == [] then []
    else (if LowStock(rows[0], threshold) then [rows[0]] else []) + FindLowStock(rows[1..], threshold)
  }

  /** The products table as the repository object holds it. */
  class ProductRepository {
    var products: Catalog

    ghost predicate Valid()
      reads this
    {
      ValidCatalog(products)
    }

    constructor (initial: Catalog)
      requires ValidCatalog(initial)
      ensures Valid() && products == initial
    {
      products := initial;
    }

    /** `findById(id)` */
    function FindById(id: ProductId): (r: Option<Product>)
      reads this
      ensures r.Some? <==> id in products
      ensures r.Some? ==> r.value == products[id]
    {
      if id in products then Some(products[id]) else None
    }

    /** `updateStock(id, quantity)`: reads the row, checks the guard, writes
        the new stock and returns the updated product. */
    method UpdateStock(id: ProductId, delta: int) returns (r: Result<Product>)
      requires Valid()
      modifies this
      ensures Valid()
      ensures ApplyStockDelta(old(products), id, delta).Err? ==>
                products == old(products) && r == Err(ApplyStockDelta(old(products), id, delta).error)
      ensures ApplyStockDelta(old(products), id, delta).Ok? ==>
                products == ApplyStockDelta(old(products), id, delta).value && r == Ok(products[id])
    {
      var found := FindById(id);
      if found.None? {
        return Err(NotFound(MissingProduct, id));
      }
      var newStock := found.value.stock + delta;
      if newStock < 0 {
        return Err(InsufficientStock(id));
      }
      products := products[id := found.value.(stock := newStock)];
      r := Ok(products[id]);
    }
  }
}
