# Inventory stock ledger — a Dafny model

This project models the core of a small inventory REST backend: a product
catalog and a ledger of stock movements. A movement is an IN or an OUT of
some quantity (kg) of a product. The stock of a product is never stored. It
is recomputed from the whole history as the sum of the IN quantities minus
the sum of the OUT quantities. Creating an OUT is refused when its quantity
exceeds the current stock. Editing a movement re-checks the stock of the
product the movement ends up on. That check leaves out the edited movement
itself, so the movement is not counted against itself. Deleting a movement
is never checked.

Files and modules:

- `values.dfy` (`Values`): optional fields, JavaScript truthiness of string
  fields, and `Response`, the outcome of a controller call. The outcomes are
  `Ok`, `NotFound`, `InsufficientStock(available)` and `Invalid`.
- `stock.dfy` (`StockLedger`): the `Movement` record and the specification of
  stock. `Stock(ms, p)` is the IN total minus the OUT total of product `p`.
  `Net` is an independent signed-sum definition. `Excluding(ms, id)` is the
  store without the records carrying a movement_id. The lemmas give stock's
  algebra: append, concatenation, removal and replacement of one record.
- `validate.dfy` (`Validate`): the two request validators, as pure functions.
- `products.dfy` (`ProductController`): class `ProductStore`. Its field
  `products: seq<Product>` is changed in place by create, update, delete and
  delete-all.
- `inventory.dfy` (`InventoryController`): class `Ledger`. Its field
  `movements: seq<Movement>` is changed in place. It reads a `ProductStore`
  (the `catalog`) for the existence checks and the product's name. Both
  stock loops of the controller are methods with loop invariants, proved
  equal to the `Stock` specification. The module ends with lemmas on what
  create, update and delete do to stock, and with worked cases.

The model follows the code. Where the code falls short of what an
inventory ledger is meant to keep, the model states the gap:

- An inventory ledger should never show negative stock, whatever the
  operation. The code checks only an OUT on create, and an effective OUT on
  update. An update that lowers an IN, or moves an IN to another product, is
  not checked. It can leave stock negative (`LoweringAnInIsUnchecked`).
- Movement ids come from the request body and are not unique. Update
  excludes every record with the id from the check but edits only the first.
  With duplicate ids an accepted OUT update can leave stock negative
  (`DuplicateIdUpdateCanGoNegative`). With unique ids it cannot
  (`AcceptedOutUpdateKeepsStock`).
- Create refuses a movement for an unknown product, but update does not
  look the effective product up, so the model does not either.
- The validators are not installed on any route in
  `routes/movements.js` or `routes/products.js`. The controllers therefore
  see unvalidated bodies: create accepts an IN of negative quantity
  (`NegativeInIsAccepted`). The validators are modelled on their own.
  `ValidatedCreateKeepsAllStockNonNegative` states what they would
  guarantee if they ran in front of create.
- The stock endpoint computes the stock before it looks the product up.
  Nothing observable depends on that order.
- Product update may overwrite `product_id`, and product create does not
  check for an existing `product_id`. The model keeps both.

The current time used as the default movement date is the `now` parameter
of `Ledger.Create`. Authentication is not modelled: every operation is
modelled as called by an authenticated user.

## Model

| member | source | states |
|---|---|---|
| `InventoryController.Ledger.CalculateStock` | controllers/inventoryController.js:6-16 | the loop returns the sum of IN quantities minus the sum of OUT quantities over the records of `p` |
| `StockLedger.StockIsNet` | controllers/inventoryController.js:9-15 | stock equals the signed sum of per-record contributions: +quantity for an IN of `p`, -quantity for an OUT of `p`, 0 for anything else, and 0 for a missing quantity |
| `StockLedger.NoMovementsNoStock` | controllers/inventoryController.js:9-15 | a product with no movements has stock 0 |
| `StockLedger.IrrelevantRecord` | controllers/inventoryController.js:11-14 | a record of another product, or one whose type is neither IN nor OUT, contributes nothing wherever it stands |
| `StockLedger.StockAppend` | controllers/inventoryController.js:11-14 | one more record changes stock by exactly its contribution |
| `StockLedger.StockConcat` | controllers/inventoryController.js:11-15 | stock is additive over any split of the store |
| `StockLedger.StockRemove` | controllers/inventoryController.js:159-166 | removing a record takes its contribution out of every product's stock |
| `StockLedger.StockReplace` | controllers/inventoryController.js:137-143 | replacing a record swaps its contribution for the new record's |
| `StockLedger.AppendKeepsNonNegative` | controllers/inventoryController.js:38-44 | if every stock is non-negative, appending a record whose contribution keeps its product non-negative keeps every stock non-negative |
| `StockLedger.ExcludingMembers` | controllers/inventoryController.js:123 | a record is in the exclusion exactly when it is in the store and does not carry the edited id: nothing is added and no other record is dropped |
| `StockLedger.ExcludingConcat` | controllers/inventoryController.js:123 | the exclusion distributes over concatenation |
| `StockLedger.ExcludingNoMatch` | controllers/inventoryController.js:123 | a store without the id is left whole by the exclusion |
| `StockLedger.ExcludingUnique` | controllers/inventoryController.js:123 | when one record carries the id, the exclusion is the store without it |
| `InventoryController.Ledger.Create` | controllers/inventoryController.js:24-58 | Invalid exactly when `product_id` or `type` is falsy or `quantity` is absent. NotFound exactly when no product has the id. InsufficientStock(current stock) exactly for an OUT above current stock, so never for an IN. The store is unchanged on every refusal. On success exactly one record is appended, with the body's fields and the date defaulting to `now` |
| `InventoryController.CreateEffect` | controllers/inventoryController.js:38-58 | an accepted create raises its product's stock by the quantity (IN) or lowers it by the quantity (OUT), and no other product's stock changes |
| `InventoryController.AcceptedOutCreateKeepsStock` | controllers/inventoryController.js:38-44 | after an accepted OUT create the product's stock is the old stock minus the quantity, and is at least 0 |
| `InventoryController.Ledger.FindOne` | controllers/inventoryController.js:85-91 | returns the first record with the movement_id, or NotFound exactly when none has it |
| `InventoryController.FirstWithId` | controllers/inventoryController.js:111 | the index found is the first record carrying the id, or the store's length when none does |
| `InventoryController.Ledger.StockExcluding` | controllers/inventoryController.js:122-129 | the loop returns the stock of `p` over every record not carrying the edited id |
| `InventoryController.Ledger.Update` | controllers/inventoryController.js:105-146 | Invalid and unchanged without a body. NotFound and unchanged for an unknown id. Otherwise the effective product and type fall back when the body's value is falsy, and the quantity falls back only when absent. InsufficientStock(stock excluding the id) and unchanged exactly for an effective OUT above that stock. Else only the first record with the id is replaced, by one with the effective fields and with date and notes changed only when supplied |
| `InventoryController.AcceptedOutUpdateKeepsStock` | controllers/inventoryController.js:117-141 | with a unique movement_id, an accepted OUT update leaves its product's stock equal to the excluded stock minus the new quantity, hence at least 0 |
| `InventoryController.UpdateEffect` | controllers/inventoryController.js:136-141 | an accepted update changes only the stock of the product the record left and of the product it joined |
| `InventoryController.SelfExclusionExample` | controllers/inventoryController.js:122-134 | with [IN 100, OUT 100 (id 2)], setting id 2's quantity to 100 passes and 101 is refused with 100 available |
| `InventoryController.LoweringAnInIsUnchecked` | controllers/inventoryController.js:131-141 | an update that lowers an IN is accepted and can leave stock negative (-99) |
| `InventoryController.DuplicateIdUpdateCanGoNegative` | controllers/inventoryController.js:111-141 | with two records sharing a movement_id, an accepted OUT update can leave stock negative (-5) |
| `InventoryController.Ledger.Delete` | controllers/inventoryController.js:157-166 | removes exactly the first record with the id, with no stock check, or returns NotFound with the store unchanged |
| `InventoryController.DeleteCanLeaveNegativeStock` | controllers/inventoryController.js:159-166 | deleting the IN of [IN 100, OUT 100] leaves stock -100 |
| `InventoryController.Ledger.DeleteAll` | controllers/inventoryController.js:177-178 | the store is emptied and the count reported is the number of records it held |
| `InventoryController.Ledger.StockByProduct` | controllers/inventoryController.js:188-211 | NotFound exactly when no product has the id; otherwise the id, the first matching product's name and the computed stock |
| `InventoryController.NegativeInIsAccepted` | controllers/inventoryController.js:24-58 | create checks no quantity of an IN: with the product in the catalog, `Ledger.Create` accepts an IN of -5 on an empty store and the computed stock is then -5 |
| `InventoryController.ValidatedBodyPassesGuard` | middleware/validate.js:16-28 | a body the validator accepts passes create's own guard, names IN or OUT, and has a positive quantity |
| `InventoryController.ValidatedCreateKeepsAllStockNonNegative` | controllers/inventoryController.js:38-58 | a validated create that passes the OUT check keeps every product's stock non-negative |
| `Validate.ValidateCreateMovement` | middleware/validate.js:13-29 | accepts exactly a body with a truthy product_id, a type of exactly IN or OUT, and a positive number quantity. Missing fields are reported first, then a bad type, then a bad quantity |
| `Validate.ValidateProductFields` | middleware/validate.js:32-46 | accepts exactly when a POST has truthy product_id and name and a PUT has at least one key. Any other method passes. The rejection reason says which check failed |
| `ProductController.FirstIndexOf` | controllers/productController.js:60-64 | the index found is the first product with the id, or the table's length when none has it |
| `ProductController.ProductStore.Create` | controllers/productController.js:11-27 | Invalid and unchanged when product_id or name is falsy. Otherwise exactly one product is appended, with the body's four fields, and an existing id is not checked |
| `ProductController.ProductStore.FindOne` | controllers/productController.js:58-64 | returns the first product with the id, or NotFound exactly when none has it |
| `ProductController.ProductStore.Update` | controllers/productController.js:90-110 | Invalid without a body. NotFound and unchanged for an unknown id. Otherwise only the first match changes: the fields present in the body (product_id included) are overwritten, the others kept, and the updated product is returned |
| `ProductController.PatchIdempotent` | controllers/productController.js:98-102 | applying the same body twice equals applying it once, and a body with no schema field changes nothing |
| `ProductController.ProductStore.Delete` | controllers/productController.js:124-131 | removes exactly the first product with the id, or NotFound and unchanged. The ledger's movements are a different object and are not touched |
| `ProductController.ProductStore.DeleteAll` | controllers/productController.js:144-146 | the table is emptied and the count is the number of products it held |

## Left out

- Listing all movements or all products (the two `findAll` handlers) is not modelled. It only returns the collection.
- `validateMongoId` is not modelled: it delegates to the database library's id check.
- The HTTP routing layer is not modelled, nor the route parameter named `:id` that the movement handlers read under another name. Each handler takes its movement_id as an integer.
- Authentication, sessions, password hashing, the server and the API documentation are not modelled. `authenticate.js` is a session gate, and every operation is modelled as called by an authenticated user.
- Persistence failures (the 500 paths) and asynchronous execution are not modelled. Every store call succeeds.
- Concurrency is not modelled. Each operation runs to completion alone, so the check-then-act race between two OUT requests is not represented.
- Quantities are mathematical reals, not IEEE doubles. Rounding, NaN and infinities are not modelled.
- Dates are opaque integers; parsing a date string is not modelled. A falsy date (`""`, `0`, `null`) is modelled as an absent one, which is how both create and update treat it.
- A movement body's `product_id`, `type` and `notes` are absent or strings. A number or `null` there (update stores a `null` note) is not modelled.
- A movement body's quantity is absent or a number. A string, `null` or another value reaching the controllers, and the database's type casting of it, are not modelled. The validator model does distinguish a non-numeric quantity.
- Product bodies map keys to strings. Non-string values in a product body are not modelled.
- The audit timestamps (`createdAt`/`updatedAt`) kept by the database are not modelled.
- `InventoryController.AcceptedOutUpdateKeepsStock` requires the edited movement_id to be unique. The code does not ensure this, and `DuplicateIdUpdateCanGoNegative` shows the property fails without it.
