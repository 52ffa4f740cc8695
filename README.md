# Warehouse stock movements: the `moveStock` decision

This project models the `moveStock` mutation of a small warehouse-inventory
service. The service keeps an append-only log of stock movements. Each movement
is an import or an export of some quantity of a product at a warehouse.
`moveStock` decides whether to accept a requested movement against that log. If
it accepts, it appends exactly one record. The model reproduces the rules in the
order the code applies them:

1. The product must exist, or the result is `ProductNotFound`.
2. The current stock of the (warehouse, product) pair is computed. Imports add to it and exports subtract from it.
3. Imports only: first sum the net stock of all *other* products in the warehouse, as one aggregate. If that sum is positive, the import is refused with `HazardConflict` when *any* movement of the warehouse references a product of the other hazard class. That includes movements of products whose stock is now zero.
4. Exports only: the export is refused with `InsufficientStock` when the current stock is below the requested quantity.
5. Otherwise the movement is appended exactly as requested.

Layout:

- `movements.dfy` (module `Movements`) holds the records (`Product`, `Movement`, `Kind`). It also holds the order-preserving filters: `InPair` and `InWarehouse` are the two movement queries the mutation sends to the store, and `NotIn` is the in-memory filter that drops the requested product. The product lookup is a map membership test. The module also holds the signed sum `Net` computed by both the `forEach` loop and the `reduce`. Lemmas about the sums complete the module.
- `rules.dfy` (module `Rules`) holds the decision as a pure function `Decide` with its rule table. `Next` is the log after the mutation. The module also has the lemmas saying what the mutation does to stock, to warehouse independence and to the stock invariants, plus concrete scenarios.
- `ledger.dfy` (module `Ledger`) holds the class `StockLedger` with the product table and the log as fields. `CurrentStock` is the accumulator loop. `MoveStock` is the mutation. Its outcome is proved equal to `Decide`, and the new log is the old one plus the created movement, or unchanged on rejection.

Quantities are exact `real` numbers. The product table is a `map<int, Product>`.
The `date` string is an opaque field. It is stored as given and never looked at.

The design document for this service describes more than the code does: a
capacity check, a warehouse-existence check, a quantity-positivity check and
per-warehouse serialisation of commits. The code has none of these, and the
model follows the code. Three consequences are proved:

- The stock invariants (no negative stock, no mixing of hazard classes in a warehouse) are proved preserved for movements of non-negative quantity.
- A negative import can break them: an import of a negative quantity is accepted and leaves negative stock (`NegativeImportAccepted`).
- A negative export bypasses the hazard check: only imports are tested against the warehouse's hazard class, so an export of a negative quantity adds stock of a hazardous product beside a stocked non-hazardous one (`NegativeExportBypassesHazardCheck`).

## Model

| member | source | states |
|---|---|---|
| Ledger.StockLedger.MoveStock | src/app.ts:207-275 | The outcome is the decision of `Decide` on the old table and log. On acceptance the log gains exactly the requested movement. On any rejection the log is unchanged. The product table never changes. The foreign-key invariant is kept, and so are the stock invariants for non-negative quantities. |
| Ledger.StockLedger.CurrentStock | src/app.ts:223-232 | The accumulator loop over the pair's movements returns that pair's stock: total imported minus total exported. |
| Rules.Decide | src/app.ts:214-263 | Missing product gives `ProductNotFound`, exactly. An export is never a hazard conflict, and an import is never an insufficient-stock rejection. An existing-product export is refused iff imported minus exported is below the quantity; otherwise it is accepted. An existing-product import is refused iff the other products' aggregate stock is positive and some movement of that warehouse references a product of the other hazard class. When that aggregate is at most 0, the import is accepted. An accepted movement is the request itself. |
| Rules.HazardMismatch | src/app.ts:250-252 | True iff some movement in the list references a product whose hazard flag differs from the given one. |
| Rules.HazardMismatchLinked | src/app.ts:250-252 | When every movement references a product of the table, the hazard test is true iff some movement's product (by index or by membership) has a flag different from the incoming product's. |
| Movements.InPair | src/app.ts:224-226 | The pair query returns exactly the logged movements with that warehouse id and product id, each as many times as the log holds it (equal multisets on matching movements), and no other. |
| Movements.InWarehouse | src/app.ts:236-239 | The warehouse query returns exactly the logged movements with that warehouse id, each as many times as the log holds it, and no other. |
| Movements.NotIn | src/app.ts:242-243 | The filter keeps exactly the movements whose product is not excluded, each as many times as the list holds it, and no other. |
| Movements.StockIsImportsMinusExports | src/app.ts:229-232 | The signed sum over the pair's movements equals total imported minus total exported for that pair. |
| Movements.StockAppend | src/app.ts:266-274 | Appending a movement changes only its own pair's stock, and by its signed quantity. |
| Movements.WarehouseSplit | src/app.ts:242-246 | A warehouse's net stock is this product's stock plus the aggregate of the other products. |
| Movements.OtherStockDominates | src/app.ts:242-249 | With no negative pair stock, the other-products aggregate is at least the stock of each of those products. So the `> 0` test fires whenever another product is in stock. |
| Rules.StockAfterMove | src/app.ts:266-274 | After the mutation, the requested pair's stock grows by the signed quantity if the move was accepted. Every other pair's stock is unchanged. |
| Rules.MovePreservesLinked | src/app.ts:215-221 | Only movements of existing products are ever appended. |
| Rules.DecisionIgnoresOtherWarehouses | src/app.ts:224-239 | Two logs with the same movements in the requested warehouse get the same decision. |
| Rules.DecisionOnWarehouseView | src/app.ts:236-239 | The decision on the whole log equals the decision on that warehouse's movements alone. |
| Rules.MovePreservesNonNegativeStock | src/app.ts:260-274 | A movement of non-negative quantity keeps every pair's stock non-negative. |
| Rules.AcceptedImportMatchesStockedProducts | src/app.ts:242-256 | With no negative pair stock: if an import is accepted and another product has positive stock in that warehouse, that product has the importing product's hazard flag. |
| Rules.MovePreservesNoCommingling | src/app.ts:234-274 | With non-negative stock and non-negative quantity, a movement never leaves a warehouse holding positive stock of both a hazardous and a non-hazardous product. |
| Rules.NegativeImportAccepted | src/app.ts:207-274 | Nothing checks the sign of the quantity: an import of -5 into an empty log is accepted and leaves stock -5. |
| Rules.HistoricalMovementBlocksImport | src/app.ts:249-256 | For any hazardous product imported and then fully exported (any quantity), its stock is 0 and another non-hazardous product holds 5, yet a later non-hazardous import is refused because of those old movements. |
| Rules.NegativeExportBypassesHazardCheck | src/app.ts:234-263 | Nothing checks the sign of an export either, and exports skip the hazard test: with 5 units of a non-hazardous product in warehouse 7, an export of -3 of a hazardous product is accepted, leaves stocks 5 and 3 side by side, and breaks the no-mixing invariant. |
| Rules.ExportUpToStock | src/app.ts:260-274 | Holding 10 units, an export of 15 is refused as insufficient. An export of 10 is accepted and leaves stock 0. |

## Left out

- GraphQL schema, server start-up and request context (src/app.ts:12-90, src/app.ts:279-292): these are transport only.
- The warehouse and product create/edit/delete mutations and the list queries (src/app.ts:94-129, src/app.ts:141-206): these are single store calls with no logic. The product table is a field that only the constructor sets.
- The `currentStock` query (src/app.ts:130-138): it only forwards an HTTP request to the calculation server. That server (src/calculationServer.ts) answers a fixed `100` and is not part of this model.
- Floating-point behaviour of `quantity`: quantities are exact reals, so rounding in long sums is not modelled.
- Store-assigned movement ids: the created record is modelled without its id.
- Store failures: an append rejected by the store is not modelled. For example, the store's foreign key would refuse a warehouse id with no warehouse record. The code itself checks only the product.
- Concurrency: the code reads, decides, then writes, with no lock. The model runs each mutation atomically, so interleavings of concurrent mutations are not captured.
- Movements whose product record is missing: the hazard test would fail at run time on such a row. The store's foreign key rules them out, and the class keeps that as its `Valid` invariant. The model's `Differs` treats such a row as no conflict; `HazardMismatchLinked` shows that under the invariant this guard never matters.
- Row order of the store queries: the queries have no ordering, and the model takes log order. With exact arithmetic the sums do not depend on order.
