/**
  The store the `moveStock` mutation works against: the product table and the
  append-only movement log, and the mutation itself.
 */
module Ledger {
  import opened Movements
  import opened Rules

  class StockLedger {
    var products: map<int, Product>
    var movements: seq<Movement>

    /** Every movement references a product of the table, as the store's foreign key guarantees. */
    ghost predicate Valid()
      reads this
    {
      Linked(products, movements)
    }

    /** The stock figures are non-negative and no warehouse mixes hazard classes. */
    ghost predicate Sound()
      reads this
    {
      StockNonNegative(movements) && NoCommingling(products, movements)
    }

    constructor (products: map<int, Product>, movements: seq<Movement>)
      requires Linked(products, movements)
      ensures Valid()
      ensures this.products == products && this.movements == movements
    {
      this.products := products;
      this.movements := movements;
    }

    /** The current stock of a pair: the signed quantities of its movements, summed one by one. */
    method CurrentStock(warehouseId: int, productId: int) returns (stock: real)
      ensures stock == Stock(movements, warehouseId, productId)
      ensures stock == Imported(movements, warehouseId, productId) - Exported(movements, warehouseId, productId)
    {
      var existing := InPair(movements, warehouseId, productId);
      stock := 0.0;
      var i := 0;
      while i < |existing|
        invariant 0 <= i <= |existing|
        invariant stock == Net(existing[..i])
      {
        var movement := existing[i];
        assert existing[..i + 1] == existing[..i] + [movement];
        NetSnoc(existing[..i], movement);
        stock := stock + (if movement.kind == Import then movement.quantity else -movement.quantity);
        i := i + 1;
      }
      assert existing[..i] == existing;
      StockIsImportsMinusExports(movements, warehouseId, productId);
    }

    /**
      Decide on the requested movement and, when it is accepted, append it.
      Rejections leave the log as it was.
     */
    method MoveStock(warehouseId: int, productId: int, quantity: real, kind: Kind, date: string) returns (r: Outcome)
      requires Valid()
      modifies this
      ensures Valid()
      ensures products == old(products)
      ensures r == Decide(old(products), old(movements), Movement(warehouseId, productId, quantity, kind, date))
      ensures movements == if r.Created? then old(movements) + [r.movement] else old(movements)
      ensures old(Sound()) && quantity >= 0.0 ==> Sound()
    {
      ghost var request := Movement(warehouseId, productId, quantity, kind, date);
      ghost var before := movements;
      if Sound() && quantity >= 0.0 {
        MovePreservesNonNegativeStock(products, before, request);
        MovePreservesNoCommingling(products, before, request);
      }

      if productId !in products {
        return Rejected(ProductNotFound);
      }
      var product := products[productId];

      var currentStock := CurrentStock(warehouseId, productId);

      if kind == Import {
        var inWarehouse := InWarehouse(movements, warehouseId);
        var otherProductsStock := Net(NotIn(inWarehouse, {productId}));
        if otherProductsStock > 0.0 {
          if HazardMismatch(products, inWarehouse, product.isHazardous) {
            return Rejected(HazardConflict);
          }
        }
      }

      if kind == Export && currentStock < quantity {
        return Rejected(InsufficientStock);
      }

      var created := Movement(warehouseId, productId, quantity, kind, date);
      movements := movements + [created];
      r := Created(created);
    }
  }
}
