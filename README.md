# Order backend core, modelled in Dafny

This project models the core logic of a small order-management backend. The
backend has a product catalog, a per-user shopping cart kept in memory, order
placement with stock decrements, order cancellation that restores stock, a
sales report, and a fuzzy, ranked product search. The model follows four
source files: `src/utils/searchUtils.js`, `src/services/cartService.js`,
`src/services/orderService.js` and `src/repositories/ProductRepository.js`.

| file | module | what it holds |
|---|---|---|
| `results.dfy` | `Results` | `Option`, `Result` and the error kinds the services raise |
| `text.dfy` | `Text` | ASCII lower-casing, trimming, `includes`, splitting into words |
| `levenshtein.dfy` | `Levenshtein` | the edit-distance recurrence and the table-filling method |
| `similarity.dfy` | `Scorer` | `containsAllWords` and `calculateSimilarity` |
| `search.dfy` | `Search` | `searchProducts` (filter, score, drop, stable sort) and `binarySearchProductById` |
| `products.dfy` | `Products` | the products table, `updateStock`, `findInStock` and `findLowStock` |
| `carts.dfy` | `Carts` | the `CartService` class and its operations as functions on cart values |
| `orders.dfy` | `Orders` | the `OrderService` class: placement, the status state machine, cancellation, the sales report |

How the model represents the source:

- Money is integer cents, because the columns are `DECIMAL(10,2)`.
- Similarity scores are `real`.
- Timestamps are integers.
- Every thrown error becomes an `Err` value.
- The cart store is a class with a `carts: map<UserId, Cart>` field.
- The order service is a class that holds:
  - the orders table as a sequence, with order `i + 1` at index `i`;
  - the order-lines table as a sequence;
  - the `ProductRepository` object whose `products` map it updates through `UpdateStock`.
- The source's loops are methods with loop invariants:
  - the Levenshtein table fill;
  - the `matchCount` loops;
  - the binary search;
  - the cart refresh;
  - the validation, write and restock loops of the order service.
- Each loop method is proved against a specification. Most are proved equal to a recursive specification function, and the properties are lemmas about those functions. The binary search is proved directly against what it promises: a returned product has the id, and `null` means no product has it.
- Some functions have no contract of their own: `Carts.Total`, `Text.Contains`, `Text.Words` and `Orders.LinesOf`. Their properties are lemmas beside them, so that callers that only unfold them stay cheap to verify.

Where the code and the system's design description disagree, the model follows the code:

- The description calls order placement atomic. The code is not: the order row, line rows and stock updates are written outside the transaction, so a failure partway leaves them in place (see Findings).
- The description says status changes only move forward. The code also allows `shipped` back to `pending` and `pending` to `pending`. `CheckTransition` models the code.
- The description says a failed restoration leaves the order unchanged. The code leaves the order's status unchanged but keeps the stock increments already made. `Restock` models that.

## Model

| member | source | states |
|---|---|---|
| Levenshtein.LevenshteinDistance | src/utils/searchUtils.js:4-29 | the filled table's corner equals the edit-distance recurrence `Dist(a, b)`; an empty `a` gives the length of `b` and an empty `b` gives the length of `a` |
| Levenshtein.FillRow | src/utils/searchUtils.js:17-26 | after row `i` is filled, every cell of rows `0..i` holds the recurrence value for its prefixes, and column 0 is untouched |
| Levenshtein.TableSelf | src/utils/searchUtils.js:17-28 | a prefix is at distance 0 from itself |
| Levenshtein.DistSelf | src/utils/searchUtils.js:17-28 | `distance(a, a) == 0` |
| Levenshtein.TableZeroEqual | src/utils/searchUtils.js:17-28 | distance 0 between prefixes implies equal lengths and equal prefixes |
| Levenshtein.DistZeroEqual | src/utils/searchUtils.js:17-28 | `distance(a, b) == 0` only when `a == b` |
| Levenshtein.TableSymmetric | src/utils/searchUtils.js:17-28 | the recurrence is symmetric on every pair of prefixes |
| Levenshtein.DistSymmetric | src/utils/searchUtils.js:17-28 | `distance(a, b) == distance(b, a)` |
| Levenshtein.TableBounds | src/utils/searchUtils.js:17-28 | the prefix-length difference bounds the recurrence below, and the longer prefix length bounds it above |
| Levenshtein.DistBounds | src/utils/searchUtils.js:77-79 | the distance is at least the difference of the two lengths and at most the longer length, so `maxLen - distance` is never negative |
| Text.ToLower | src/utils/searchUtils.js:43-44 | same length, each character folded from 'A'..'Z' to lower case and the rest kept |
| Text.Trim | src/utils/searchUtils.js:43-44 | the result is no longer than the input and neither starts nor ends with white space |
| Text.TrimCuts | src/utils/searchUtils.js:43-44 | the result is a slice of the input, and everything cut before and after it is white space |
| Text.TrimStart | src/utils/searchUtils.js:43-44 | the result is a suffix of the input, everything dropped is white space, and it does not start with white space |
| Text.TrimEnd | src/utils/searchUtils.js:43-44 | the result is a prefix of the input, everything dropped is white space, and it does not end with white space |
| Text.ContainsAt | src/utils/searchUtils.js:46 | `text.includes(pat)` holds exactly when `pat` occurs in `text` at some index |
| Text.ContainsTrans | src/utils/searchUtils.js:36 | inclusion is transitive: what a substring includes, the string includes |
| Text.ContainsWhereOccurs | src/utils/searchUtils.js:46 | an occurrence at any index makes `includes` hold |
| Text.ContainsSelf | src/utils/searchUtils.js:46-48 | every string includes itself and the empty string |
| Text.WordsShape | src/utils/searchUtils.js:55-56 | every word the split-and-filter yields is non-empty and holds no white space |
| Text.WordsOccur | src/utils/searchUtils.js:34 | every word the split-and-filter yields is included in the string it came from |
| Scorer.ContainsImpliesAllWords | src/utils/searchUtils.js:32-37 | when `a` includes the whole of `b`, lower-cased, `containsAllWords(a, b)` holds, so the 80-point case covers the 100-point case |
| Scorer.PairScore | src/utils/searchUtils.js:60-71 | one word pair adds 0, 0.5 or 1, and adds 1 exactly when the words are equal |
| Scorer.RowScore | src/utils/searchUtils.js:60-71 | one query word adds between 0 and the number of text words |
| Scorer.MatchCount | src/utils/searchUtils.js:58-72 | `matchCount` is never negative |
| Scorer.CountMatches | src/utils/searchUtils.js:58-72 | the nested loops leave `matchCount` equal to the sum of the pair scores over all (query word, text word) pairs |
| Scorer.WordScore | src/utils/searchUtils.js:74 | the word score is never negative |
| Scorer.DistanceScore | src/utils/searchUtils.js:77-79 | the distance score lies in [0, 40] |
| Scorer.WordOverlapScore | src/utils/searchUtils.js:55-74 | the split, the loops and the scaling compute the word score |
| Scorer.EditDistanceScore | src/utils/searchUtils.js:77-79 | the length maximum, the table fill and the scaling compute the distance score |
| Scorer.Similarity | src/utils/searchUtils.js:40-82 | the score lies in [0, 100]; it is 0 when either argument is empty; 100 when the normalised text contains the normalised query; 80 when it does not but contains every query word |
| Scorer.SimilaritySelf | src/utils/searchUtils.js:43-48 | a non-empty query scores 100 against itself |
| Scorer.CalculateSimilarity | src/utils/searchUtils.js:40-82 | the method, with its short-circuits and loops, returns exactly `Similarity(query, text)` |
| Search.FilterProducts | src/utils/searchUtils.js:88-102 | the filter never lengthens its input |
| Search.FilterProductsMembers | src/utils/searchUtils.js:88-102 | a product is kept exactly when it is in the input and passes the category, minPrice and maxPrice filters |
| Search.FilterProductsConcat | src/utils/searchUtils.js:88 | filtering a concatenation is concatenating the filtered parts, so input order and repetitions are kept |
| Search.FilterProductsAllPass | src/utils/searchUtils.js:105-107 | when every product passes the filters, the filter returns its input unchanged |
| Search.TotalScore | src/utils/searchUtils.js:109-114 | the weighted average of the three field scores lies in [0, 100] |
| Search.ScoreAll | src/utils/searchUtils.js:109-120 | the i-th scored entry is the i-th product with its total score |
| Search.KeepPositive | src/utils/searchUtils.js:123 | an entry is kept exactly when it scores above 0 |
| Search.InsertByScorePermutes | src/utils/searchUtils.js:124 | insertion adds the entry and loses nothing, as a multiset |
| Search.InsertByScoreBounded | src/utils/searchUtils.js:124 | inserting below a bound keeps every score below it |
| Search.InsertByScoreSorted | src/utils/searchUtils.js:124 | insertion keeps a list non-increasing in score |
| Search.SortByScore | src/utils/searchUtils.js:124 | the sort is a permutation of its input and is non-increasing in score |
| Search.SortByScoreMembers | src/utils/searchUtils.js:124 | the sorted list has the same members as its input |
| Search.InsertByScoreStable | src/utils/searchUtils.js:124 | inserting `h` puts it ahead of the entries of equal score and keeps their order |
| Search.SortByScoreStable | src/utils/searchUtils.js:124 | the sort keeps input order among entries of equal score |
| Search.SearchProducts | src/utils/searchUtils.js:85-125 | with no query, the result is exactly the filtered input in input order; with a query, every hit is an input product that passes the filters and carries its own total score, which is above 0, and the hits are non-increasing in score |
| Search.SearchComplete | src/utils/searchUtils.js:85-125 | with a query, every input product that passes the filters and scores above 0 is among the hits |
| Search.SearchStable | src/utils/searchUtils.js:122-124 | hits of equal score keep the order of the filtered input |
| Search.BinarySearchProductById | src/utils/searchUtils.js:127-146 | a returned product is in the list and has the id; on a list sorted by id, `null` is returned only when no product has the id; every index read is in bounds and the loop terminates |
| Products.ApplyStockDelta | src/repositories/ProductRepository.js:56-68 | an unknown id gives not-found; a new stock below 0 gives insufficient stock; success happens exactly when neither applies, and then only that product's stock changes, by exactly `delta`, and a valid catalog stays valid |
| Products.FindInStock | src/repositories/ProductRepository.js:36-43 | exactly the rows with `stock > 0` are selected |
| Products.FindLowStock | src/repositories/ProductRepository.js:46-53 | exactly the rows with `0 < stock <= threshold` are selected |
| Products.ProductRepository.constructor | src/repositories/ProductRepository.js:8-10 | the repository starts valid, over the given table |
| Products.ProductRepository.FindById | src/repositories/ProductRepository.js:57-60 | a product is found exactly when its id is in the table, and it is that row |
| Products.ProductRepository.UpdateStock | src/repositories/ProductRepository.js:56-68 | on failure the table is unchanged and the error is the one `ApplyStockDelta` gives; on success the table is `ApplyStockDelta`'s result and the updated row is returned; `stock >= 0` is preserved |
| Carts.LineIndex | src/services/cartService.js:61 | the index of the first line for the product, or -1 exactly when no line holds it |
| Carts.AddToCart | src/services/cartService.js:35-92 | missing or falsy productId or quantity, or a quantity of 0 or less, gives invalid input; an unknown product gives not-found; on success the total is derived from the lines, and either one line with the product's name, price and stock snapshot is appended or the existing line's quantity grows by the amount added |
| Carts.AddToCartValid | src/services/cartService.js:61-86 | a successful add keeps a cart valid: total derived, one line per product, quantities at least 1 |
| Carts.AddToCartBag | src/services/cartService.js:43-83 | on a valid cart, `addItem` succeeds exactly when the product exists and the held quantity plus the new one is within stock; otherwise the error names the failed check; on success that product's quantity grows by exactly `q` and no other product's quantity changes |
| Carts.UpdateInCart | src/services/cartService.js:95-145 | these fail, in this order: quantity 0 or less (invalid input), no cart (cart not found), line absent (item not found), product absent from the catalog (product not found), stock below the quantity (insufficient stock); success happens exactly when none of these applies, and then only that line's quantity and stock snapshot change and the total is derived |
| Carts.UpdateInCartBag | src/services/cartService.js:134-139 | a successful update keeps the cart valid, sets the product's quantity to exactly the new one and moves no other product |
| Carts.RemoveLines | src/services/cartService.js:157 | the filter never lengthens the lines, and no line of the removed product is left |
| Carts.RemoveLinesMembers | src/services/cartService.js:157 | the filter keeps exactly the lines of other products |
| Carts.RemoveLinesConcat | src/services/cartService.js:157 | filtering a concatenation is concatenating the filtered parts, so the kept lines stay in order |
| Carts.RemoveLinesAbsent | src/services/cartService.js:157 | removing a product that has no line changes nothing |
| Carts.RemoveLinesBag | src/services/cartService.js:157 | after removal the product's quantity is 0 and every other product keeps its quantity |
| Carts.RemoveLinesValid | src/services/cartService.js:157-160 | removal keeps one line per product and positive quantities |
| Carts.RemoveLinesUnique | src/services/cartService.js:157 | removal keeps the lines' product ids distinct |
| Carts.RemoveFromCart | src/services/cartService.js:147-166 | it fails exactly when the user has no cart, with not-found; otherwise the lines are exactly the stored ones of other products and the total is derived (their order is that of `RemoveLinesConcat`) |
| Carts.RemoveLinesIdempotent | src/services/cartService.js:157 | filtering twice is filtering once |
| Carts.RemoveFromCartIdempotent | src/services/cartService.js:147-166 | `removeItem` applied to its own result gives the same cart |
| Carts.AddThenRemove | src/services/cartService.js:74-82 | adding a product the cart does not hold, then removing it, gives back the original cart and total |
| Carts.TotalConcat | src/services/cartService.js:175-179 | the total of two line lists together is the sum of their totals |
| Carts.TotalNonNeg | src/services/cartService.js:175-179 | lines with non-negative prices and quantities have a non-negative total |
| Carts.RefreshLine | src/services/cartService.js:17-26 | a found product overwrites the line's name, price and stock snapshot; a missing product leaves the line stale; product and quantity never change |
| Carts.RefreshCart | src/services/cartService.js:13-29 | every line is refreshed in place; for a cart with lines, the total is recomputed from the refreshed lines |
| Carts.RefreshCartValid | src/services/cartService.js:16-28 | refreshing keeps a cart valid and keeps every product's quantity |
| Carts.CartService.constructor | src/services/cartService.js:5-8 | the store starts empty |
| Carts.CartService.Stored | src/services/cartService.js:103 | `carts.get(userId)`: present exactly when the user has a cart |
| Carts.CartService.GetCart | src/services/cartService.js:11-32 | an unknown user gets an empty cart and nothing is stored; a known user's cart is refreshed and stored back; every stored cart stays valid |
| Carts.CartService.AddItem | src/services/cartService.js:35-92 | the result is `AddToCart` of the stored or empty cart; the store changes only on success, and then only that user's entry |
| Carts.CartService.UpdateItemQuantity | src/services/cartService.js:95-145 | the result is `UpdateInCart` of the stored cart; the store changes only on success |
| Carts.CartService.RemoveItem | src/services/cartService.js:147-166 | the result is `RemoveFromCart` of the stored cart; the store changes only on success |
| Carts.CartService.ClearCart | src/services/cartService.js:169-173 | it never fails, and it stores and returns an empty cart with total 0 |
| Orders.ParseStatus | src/services/orderService.js:106-112 | a string is accepted exactly when it names one of the four statuses, and it maps to that status |
| Orders.Validate | src/services/orderService.js:38-57 | it succeeds exactly when every item names an existing product with enough stock, each checked against the unchanged catalog; the value is the sum of price times quantity; on failure the error belongs to the first failing item: not-found or insufficient stock |
| Orders.ValidateErrSticks | src/services/orderService.js:41-57 | the first failing item ends validation with its error |
| Orders.WriteLines | src/services/orderService.js:66-84 | at most one line per item is written, and one per item when nothing fails |
| Orders.WriteStep | src/services/orderService.js:66-84 | after a failure nothing more happens; otherwise one line is written, or the step fails |
| Orders.WriteStepShape | src/services/orderService.js:68-83 | one step keeps earlier lines, writes the item's line at the product's current price with subtotal price times quantity, and changes no product field but stock |
| Orders.WriteLinesCatalog | src/services/orderService.js:79-83 | the writes change no product and no field but stock, and keep the catalog valid |
| Orders.WriteLinesRows | src/services/orderService.js:70-76 | the k-th line written is the k-th item, at its product's price, with a quantity of at least 1 and subtotal price times quantity |
| Orders.WriteLinesFailureSticks | src/services/orderService.js:66-93 | the first write failure ends the loop, with what was written up to it left in place |
| Orders.WriteLinesExact | src/services/orderService.js:79-83 | when each product's stock covers the total quantity requested of it, the writes all succeed and that stock drops by exactly that total; other products keep their stock |
| Orders.WriteLinesSuccessStock | src/services/orderService.js:79-83 | whenever the writes succeed, each product's stock has dropped by exactly the total quantity requested of it |
| Orders.DistinctItemsWriteInFull | src/services/orderService.js:41-84 | with distinct product ids and positive quantities, an order that passes validation is written in full |
| Orders.SubtotalsMatchTotal | src/services/orderService.js:56-76 | when every line is written, the subtotals add up to the validated order total |
| Orders.DuplicateItemsPartialWrite | src/services/orderService.js:41-84 | two requests of 2 against a stock of 3 pass validation; the second decrement then fails after both lines and the first decrement were written |
| Orders.CheckTransition | src/services/orderService.js:106-119 | an unknown status gives invalid input; a cancelled or delivered order cannot change; from pending or shipped any of the four statuses is allowed, backwards included |
| Orders.Restock | src/services/orderService.js:141-150 | restoration changes no product and no field but stock, and keeps the catalog valid |
| Orders.RestockStep | src/services/orderService.js:144-150 | one restoration step, after a failure, changes nothing |
| Orders.RestockFailureSticks | src/services/orderService.js:144-156 | the first restoration failure ends the loop, with the increments made up to it kept |
| Orders.RestockExact | src/services/orderService.js:144-150 | when every line's product exists, restoration succeeds and each stock grows by exactly the quantity its lines hold |
| Orders.LinesOfMembers | src/services/orderService.js:141 | the lines found for an order are exactly the table's lines that carry its id |
| Orders.LinesOfAppend | src/services/orderService.js:141 | finding over two tables together is concatenating what is found in each, so table order is kept |
| Orders.LinesOfAll | src/services/orderService.js:141 | when every line carries the order's id, all are found, in order |
| Orders.LinesOfNone | src/services/orderService.js:141 | when no line carries the order's id, nothing is found |
| Orders.LineQuantityOfWritten | src/services/orderService.js:66-84 | after a full write the lines hold, for each product, exactly the quantity requested of it |
| Orders.CancelUndoesCreate | src/services/orderService.js:136-157 | cancelling an order that was placed in full gives back the catalog exactly as it was before the order |
| Orders.InDateRange | src/repositories/OrderRepository.js:86-95 | an order is selected exactly when its creation time is between the two dates, inclusive |
| Orders.SumTotalsNonNeg | src/services/orderService.js:165 | orders with non-negative totals have a non-negative sum |
| Orders.BuildReport | src/services/orderService.js:160-190 | `orderCount` is the number of orders and `totalSales` their sum; with no orders, the sum and average are 0 and the top-seller list is empty; otherwise average times count equals total sales; when the aggregation throws, the list is empty; otherwise it is the aggregation's result |
| Orders.OrderService.constructor | src/services/orderService.js:8 | the service starts with no orders and no lines over a valid catalog |
| Orders.OrderService.ValidateItems | src/services/orderService.js:38-57 | the validation loop returns exactly `Validate` of the catalog |
| Orders.OrderService.WriteItem | src/services/orderService.js:67-83 | one pass of the write loop appends its line and updates the stock as `WriteStep` says |
| Orders.OrderService.WriteItems | src/services/orderService.js:66-84 | the write loop appends exactly `WriteLines`' lines to the table and leaves the catalog as `WriteLines` says, failure included |
| Orders.OrderService.CreateOrder | src/services/orderService.js:32-94 | a validation failure returns that error with nothing written; a negative total is rejected with nothing written; otherwise a `pending` order with the next id and the validated total is appended and the lines and stock decrements follow, and a failure among them is returned with everything already written left in place |
| Orders.OrderService.CreateOrderAtomic | src/services/orderService.js:32-94 | a failure leaves orders, lines and stock exactly as before; success happens exactly when validation passes with a non-negative total and every write succeeds, and then the state is that of a full placement |
| Orders.OrderService.UpdateOrderStatus | src/services/orderService.js:96-128 | these fail with nothing changed, in this order: unknown order, unknown status, cancelled or delivered order; a move to `cancelled` restores stock first and sets the status only if restoration succeeds; any other move changes only the status |
| Orders.OrderService.CancelOrder | src/services/orderService.js:131-133 | it is `updateOrderStatus(id, "cancelled")`; on success the order's status is `cancelled`, from which `CheckTransition` allows no further change |
| Orders.OrderService.HandleCancellation | src/services/orderService.js:136-157 | the loop leaves the catalog and the failure exactly as `Restock` over the order's lines gives them |
| Orders.OrderService.GetSalesReport | src/services/orderService.js:160-190 | the report counts the orders created in the date range, and its total sales and average are never negative |

## Left out

- HTTP routing, controllers, middleware and status codes are left out. Errors are the `Error` kinds, not status codes.
- Authentication, users and password hashing are outside this core.
- `async`/`await` and concurrent requests are left out. Each operation runs as one sequential state update.
- The Sequelize transaction primitive is left out. In the source its handle reaches no write, so it has no effect on the modelled state. `CreateOrderAtomic` uses an explicit snapshot and restore instead.
- Floating-point money is left out. Prices, totals and subtotals are integer cents, and `parseFloat` and JS rounding are not modelled. Similarity scores are exact reals.
- Unicode is left out. `toLowerCase` folds ASCII letters only, and `\s` is space plus the characters 9 to 13.
- `ProductRepository.search`, `findByCategory` and `getDistinctCategories` are ORM queries whose `LIKE` matching and grouping depend on the database; they are not modelled.
- The top-selling-products aggregation is a SQL `GROUP BY`. It is an input to `GetSalesReport`: `None` when the query throws, otherwise the rows it returned.
- `getAllOrders`, `getUserOrders` and `getOrderById` are plain reads through the ORM and are not modelled. `CreateOrder` returns the order it wrote rather than re-reading it.
- Eager-loaded associations (products joined onto lines and orders) and the `updatedAt` timestamps are left out.
- Aliasing of cart objects is left out. The source returns the stored cart object itself, so a caller that mutates it mutates the store; carts here are values.
- The price and subtotal checks of the order-lines table (at least 0) are left out. Over a valid catalog, where every price is at least 1 cent, they cannot fail once a quantity is at least 1.
- Scorer.MatchCount: states only that the count is non-negative. It does not state the bound of the number of query words times the number of text words.
- Scorer.WordScore: states only that the word score is non-negative. It does not state an upper bound, which the clamp to 100 in `Similarity` makes unnecessary.
- Orders.WriteLines: its own contract states only how many lines are written. The contents of the lines, the stock and the catalog are stated by the lemmas beside it.
- Orders.OrderService.GetSalesReport: states count and sign only. The exact sums are stated by `BuildReport`.
- Fractional quantities are left out. Quantities are integers here. In the source a request such as `quantity: 1.5` passes validation and its stock check, the order row is written, and the line is then rejected by the `isInt` check of the order-lines table (src/models/OrderItem.js:46) with the order row left in place.
- The default threshold of `findLowStock` (5) is a JavaScript default argument; `FindLowStock` always takes the threshold explicitly.

## Findings

| source | as written | input that shows it | evidently intended | confidence | as-written member | corrected member |
|---|---|---|---|---|---|---|
| src/services/orderService.js:60-93 | The order row, the line rows and the stock decrements are written without the transaction (`create(data)` and `updateStock(id, quantity)` take no options), so `rollback()` undoes nothing. Items are validated one by one against the unchanged stock, so the total requested of one product is never checked. | One product with stock 3, and items `[{productId: 1, quantity: 2}, {productId: 1, quantity: 2}]`. Validation passes with total 79.96 (two times 2 at 19.99). The order row, both lines and the first decrement (stock 1) are written, then the second decrement fails and the error is thrown with all of that left in place. | A failed placement leaves no order, no lines and no stock change. | high; not executed | Orders.DuplicateItemsPartialWrite | Orders.OrderService.CreateOrderAtomic |
