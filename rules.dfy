/**
  The decision the `moveStock` mutation takes on a requested movement, as a
  pure function of the product table and the log, and what that decision
  does to the log and to the stock invariants.
 */
module Rules {
  import opened Movements

  /** Why a movement was refused; the source throws one error message per case. */
  datatype Reason = ProductNotFound | HazardConflict | InsufficientStock

  datatype Outcome = Created(movement: Movement) | Rejected(reason: Reason)

  /** Movement `m` references a product whose hazard flag is not `hazardous`. */
  predicate Differs(products: map<int, Product>, m: Movement, hazardous: bool) {
    m.productId in products && products[m.productId].isHazardous != hazardous
  }

  /** Some movement of `ms` references a product whose hazard flag is not `hazardous`. */
  function HazardMismatch(products: map<int, Product>, ms: seq<Movement>, hazardous: bool): (conflict: bool)
    ensures conflict <==> exists m :: m in ms && Differs(products, m, hazardous)
  {
    if ms == [] then false
    else
      assert ms == ms[..|ms| - 1] + [ms[|ms| - 1]];
      HazardMismatch(products, ms[..|ms| - 1], hazardous) || Differs(products, ms[|ms| - 1], hazardous)
  }

  /**
    The rules, in the order the mutation applies them: the product must exist;
    an import is refused when the other products of the warehouse hold a
    positive aggregate stock and any movement of the warehouse references a
    product of the other hazard class; an export is refused when it asks for
    more than the pair holds. Otherwise `m` is created as requested.
   */
  function Decide(products: map<int, Product>, log: seq<Movement>, m: Movement): (r: Outcome)
    ensures r.Created? ==> r.movement == m
    ensures r == Rejected(ProductNotFound) <==> m.productId !in products
    ensures m.kind == Export ==> r != Rejected(HazardConflict)
    ensures m.kind == Import ==> r != Rejected(InsufficientStock)
    ensures m.kind == Export && m.productId in products ==>
              (r == Rejected(InsufficientStock) <==> Imported(log, m.warehouseId, m.productId) - Exported(log, m.warehouseId, m.productId) < m.quantity)
    ensures m.kind == Import && m.productId in products ==>
              (r == Rejected(HazardConflict) <==>
                 OtherStock(log, m.warehouseId, m.productId) > 0.0
                 && exists prior :: prior in log && prior.warehouseId == m.warehouseId && Differs(products, prior, products[m.productId].isHazardous))
    ensures m.kind == Import && m.productId in products && OtherStock(log, m.warehouseId, m.productId) <= 0.0 ==> r == Created(m)
    ensures m.kind == Export && m.productId in products ==>
              (m.quantity <= Imported(log, m.warehouseId, m.productId) - Exported(log, m.warehouseId, m.productId) ==> r == Created(m))
  {
    StockIsImportsMinusExports(log, m.warehouseId, m.productId);
    if m.productId !in products then Rejected(ProductNotFound)
    else
      var product := products[m.productId];
      var inWarehouse := InWarehouse(log, m.warehouseId);
      if m.kind == Import && OtherStock(log, m.warehouseId, m.productId) > 0.0
         && HazardMismatch(products, inWarehouse, product.isHazardous)
      then Rejected(HazardConflict)
      else if m.kind == Export && Stock(log, m.warehouseId, m.productId) < m.quantity
      then Rejected(InsufficientStock)
      else Created(m)
  }

  /** The log after the mutation: one movement longer on acceptance, unchanged otherwise. */
  function Next(products: map<int, Product>, log: seq<Movement>, m: Movement): seq<Movement> {
    if Decide(products, log, m).Created? then log + [m] else log
  }

  /** Every movement references a product of the table (the store's foreign key). */
  ghost predicate Linked(products: map<int, Product>, log: seq<Movement>) {
    forall m :: m in log ==> m.productId in products
  }

  /** No (warehouse, product) pair has negative stock. */
  ghost predicate StockNonNegative(log: seq<Movement>) {
    forall w, p :: Stock(log, w, p) >= 0.0
  }

  /** No warehouse holds stock of a hazardous and of a non-hazardous product at once. */
  ghost predicate NoCommingling(products: map<int, Product>, log: seq<Movement>) {
    forall w, p1, p2 ::
      p1 in products && p2 in products && Stock(log, w, p1) > 0.0 && Stock(log, w, p2) > 0.0
      ==> products[p1].isHazardous == products[p2].isHazardous
  }

  /** An accepted movement adds its signed quantity to its own pair's stock; no other pair changes. */
  lemma {:induction false} StockAfterMove(products: map<int, Product>, log: seq<Movement>, m: Movement, w: int, p: int)
    ensures Stock(Next(products, log, m), w, p) ==
              Stock(log, w, p)
              + (if Decide(products, log, m).Created? && m.warehouseId == w && m.productId == p then Signed(m) else 0.0)
  {
    if Decide(products, log, m).Created? {
      StockAppend(log, m, w, p);
    }
  }

  /** The mutation keeps every movement referencing an existing product. */
  lemma MovePreservesLinked(products: map<int, Product>, log: seq<Movement>, m: Movement)
    requires Linked(products, log)
    ensures Linked(products, Next(products, log, m))
  {
  }

  /**
    Under the store's foreign key every movement has a product record, so the
    hazard test is exactly "some movement's product has the other flag".
   */
  lemma {:induction false} HazardMismatchLinked(products: map<int, Product>, ms: seq<Movement>, hazardous: bool)
    requires Linked(products, ms)
    ensures HazardMismatch(products, ms, hazardous) <==>
              exists m :: m in ms && products[m.productId].isHazardous != hazardous
    ensures HazardMismatch(products, ms, hazardous) <==>
              exists i :: 0 <= i < |ms| && products[ms[i].productId].isHazardous != hazardous
  {
    if HazardMismatch(products, ms, hazardous) {
      var m :| m in ms && Differs(products, m, hazardous);
      var i :| 0 <= i < |ms| && ms[i] == m;
      assert products[ms[i].productId].isHazardous != hazardous;
    }
    if exists i :: 0 <= i < |ms| && products[ms[i].productId].isHazardous != hazardous {
      var i :| 0 <= i < |ms| && products[ms[i].productId].isHazardous != hazardous;
      assert ms[i] in ms && Differs(products, ms[i], hazardous);
    }
  }

  /** Two logs that agree on the movements of warehouse `w` get the same decision for a movement into `w`. */
  lemma DecisionIgnoresOtherWarehouses(products: map<int, Product>, log1: seq<Movement>, log2: seq<Movement>, m: Movement)
    requires InWarehouse(log1, m.warehouseId) == InWarehouse(log2, m.warehouseId)
    ensures Decide(products, log1, m) == Decide(products, log2, m)
  {
    InPairFactors(log1, m.warehouseId, m.productId);
    InPairFactors(log2, m.warehouseId, m.productId);
  }

  /** The decision reads only the requested warehouse's part of the log. */
  lemma DecisionOnWarehouseView(products: map<int, Product>, log: seq<Movement>, m: Movement)
    ensures Decide(products, log, m) == Decide(products, InWarehouse(log, m.warehouseId), m)
  {
    InWarehouseIdempotent(log, m.warehouseId);
    DecisionIgnoresOtherWarehouses(products, log, InWarehouse(log, m.warehouseId), m);
  }

  /** A movement of non-negative quantity never drives a pair's stock below zero. */
  lemma MovePreservesNonNegativeStock(products: map<int, Product>, log: seq<Movement>, m: Movement)
    requires StockNonNegative(log)
    requires m.quantity >= 0.0
    ensures StockNonNegative(Next(products, log, m))
  {
    forall w, p ensures Stock(Next(products, log, m), w, p) >= 0.0 {
      StockAfterMove(products, log, m, w, p);
      StockIsImportsMinusExports(log, w, p);
    }
  }

  /**
    An accepted import of `m` into a warehouse where another product is in
    stock implies that product shares the hazard flag of `m`'s product.
   */
  lemma AcceptedImportMatchesStockedProducts(products: map<int, Product>, log: seq<Movement>, m: Movement, other: int)
    requires StockNonNegative(log)
    requires m.kind == Import && Decide(products, log, m).Created?
    requires other in products && other != m.productId
    requires Stock(log, m.warehouseId, other) > 0.0
    ensures products[other].isHazardous == products[m.productId].isHazardous
  {
    OtherStockDominates(log, m.warehouseId, m.productId, other);
    StockedPairHasMovement(log, m.warehouseId, other);
    var seen :| seen in log && seen.warehouseId == m.warehouseId && seen.productId == other;
    assert !Differs(products, seen, products[m.productId].isHazardous);
  }

  /**
    A movement of non-negative quantity, applied to a log whose stocks are
    non-negative and never mix hazard classes in a warehouse, keeps them unmixed.
   */
  lemma MovePreservesNoCommingling(products: map<int, Product>, log: seq<Movement>, m: Movement)
    requires StockNonNegative(log) && NoCommingling(products, log)
    requires m.quantity >= 0.0
    ensures NoCommingling(products, Next(products, log, m))
  {
    var next := Next(products, log, m);
    forall w, p1, p2 | p1 in products && p2 in products && Stock(next, w, p1) > 0.0 && Stock(next, w, p2) > 0.0
      ensures products[p1].isHazardous == products[p2].isHazardous
    {
      StockAfterMove(products, log, m, w, p1);
      StockAfterMove(products, log, m, w, p2);
      var accepted := Decide(products, log, m).Created?;
      if accepted && m.kind == Import && w == m.warehouseId && p1 == m.productId && p2 != m.productId {
        AcceptedImportMatchesStockedProducts(products, log, m, p2);
      } else if accepted && m.kind == Import && w == m.warehouseId && p2 == m.productId && p1 != m.productId {
        AcceptedImportMatchesStockedProducts(products, log, m, p1);
      } else if p1 != p2 {
        assert Stock(log, w, p1) > 0.0 && Stock(log, w, p2) > 0.0;
      }
    }
  }

  /** With no positivity check, an import of a negative quantity is accepted and leaves negative stock. */
  lemma NegativeImportAccepted()
    ensures var products := map[1 := Product("crate", 1.0, false)];
            var m := Movement(1, 1, -5.0, Import, "2024-01-01");
            Decide(products, [], m) == Created(m)
            && Stock(Next(products, [], m), 1, 1) == -5.0
            && !StockNonNegative(Next(products, [], m))
  {
    var products := map[1 := Product("crate", 1.0, false)];
    var m := Movement(1, 1, -5.0, Import, "2024-01-01");
    StockAfterMove(products, [], m, 1, 1);
  }

  /**
    With no sign check on exports either, an export of a negative quantity is
    accepted as if it were an import, and it skips the hazard test that only
    imports get: a hazardous product lands beside a stocked non-hazardous one.
   */
  lemma NegativeExportBypassesHazardCheck(flour: Product, acid: Product)
    requires !flour.isHazardous && acid.isHazardous
    ensures var products := map[1 := flour, 2 := acid];
            var log := [Movement(7, 1, 5.0, Import, "d1")];
            var m := Movement(7, 2, -3.0, Export, "d2");
            Decide(products, log, m) == Created(m)
            && Stock(Next(products, log, m), 7, 1) == 5.0
            && Stock(Next(products, log, m), 7, 2) == 3.0
            && !NoCommingling(products, Next(products, log, m))
  {
    var products := map[1 := flour, 2 := acid];
    var m0 := Movement(7, 1, 5.0, Import, "d1");
    var log := [m0];
    var m := Movement(7, 2, -3.0, Export, "d2");
    assert log == [] + [m0];
    StockAppend([], m0, 7, 1);
    StockAppend([], m0, 7, 2);
    assert Stock(log, 7, 2) == 0.0;
    assert Decide(products, log, m) == Created(m);
    StockAfterMove(products, log, m, 7, 1);
    StockAfterMove(products, log, m, 7, 2);
    var next := Next(products, log, m);
    assert Stock(next, 7, 1) > 0.0 && Stock(next, 7, 2) > 0.0 && products[1].isHazardous != products[2].isHazardous;
  }

  /** A pair's stock after three movements is the sum of their contributions. */
  lemma {:induction false} StockOfThree(m0: Movement, m1: Movement, m2: Movement, w: int, p: int)
    ensures Stock([m0, m1, m2], w, p) ==
              (if m0.warehouseId == w && m0.productId == p then Signed(m0) else 0.0)
              + (if m1.warehouseId == w && m1.productId == p then Signed(m1) else 0.0)
              + (if m2.warehouseId == w && m2.productId == p then Signed(m2) else 0.0)
  {
    assert [m0] == [] + [m0];
    assert [m0, m1] == [m0] + [m1];
    assert [m0, m1, m2] == [m0, m1] + [m2];
    StockAppend([], m0, w, p);
    StockAppend([m0], m1, w, p);
    StockAppend([m0, m1], m2, w, p);
  }

  /** The signed sum of three movements. */
  lemma {:induction false} NetOfThree(m0: Movement, m1: Movement, m2: Movement)
    ensures Net([m0, m1, m2]) == Signed(m0) + Signed(m1) + Signed(m2)
  {
    assert [m0] == [] + [m0];
    assert [m0, m1] == [m0] + [m1];
    assert [m0, m1, m2] == [m0, m1] + [m2];
    NetSnoc([], m0);
    NetSnoc([m0], m1);
    NetSnoc([m0, m1], m2);
  }

  /** The aggregate of the other products over three movements of one warehouse, none of product `p`. */
  lemma {:induction false} OtherStockOfThree(m0: Movement, m1: Movement, m2: Movement, w: int, p: int)
    requires m0.warehouseId == w && m1.warehouseId == w && m2.warehouseId == w
    requires m0.productId != p && m1.productId != p && m2.productId != p
    ensures OtherStock([m0, m1, m2], w, p) == Signed(m0) + Signed(m1) + Signed(m2)
  {
    var log := [m0, m1, m2];
    InWarehouseAll(log, w);
    NotInNone(log, {p});
    NetOfThree(m0, m1, m2);
  }

  /** The stocks of the log used by `HistoricalMovementBlocksImport`: product 1 is back at zero, product 2 holds 5. */
  lemma HistoricalLogStocks(q: real)
    ensures Stock([Movement(7, 1, q, Import, "d1"), Movement(7, 1, q, Export, "d2"), Movement(7, 2, 5.0, Import, "d3")], 7, 1) == 0.0
    ensures Stock([Movement(7, 1, q, Import, "d1"), Movement(7, 1, q, Export, "d2"), Movement(7, 2, 5.0, Import, "d3")], 7, 2) == 5.0
    ensures OtherStock([Movement(7, 1, q, Import, "d1"), Movement(7, 1, q, Export, "d2"), Movement(7, 2, 5.0, Import, "d3")], 7, 3) == 5.0
  {
    var m0, m1, m2 := Movement(7, 1, q, Import, "d1"), Movement(7, 1, q, Export, "d2"), Movement(7, 2, 5.0, Import, "d3");
    assert Stock([m0, m1, m2], 7, 1) == 0.0 by { StockOfThree(m0, m1, m2, 7, 1); }
    assert Stock([m0, m1, m2], 7, 2) == 5.0 by { StockOfThree(m0, m1, m2, 7, 2); }
    assert OtherStock([m0, m1, m2], 7, 3) == 5.0 by { OtherStockOfThree(m0, m1, m2, 7, 3); }
  }

  /** The log used by `HistoricalMovementBlocksImport` holds a movement of a product that differs from the non-hazardous class. */
  lemma HistoricalLogConflicts(products: map<int, Product>, q: real)
    requires 1 in products && products[1].isHazardous
    ensures var log := [Movement(7, 1, q, Import, "d1"), Movement(7, 1, q, Export, "d2"), Movement(7, 2, 5.0, Import, "d3")];
            HazardMismatch(products, InWarehouse(log, 7), false)
  {
    var log := [Movement(7, 1, q, Import, "d1"), Movement(7, 1, q, Export, "d2"), Movement(7, 2, 5.0, Import, "d3")];
    InWarehouseAll(log, 7);
    assert Differs(products, log[0], false);
  }

  /**
    A non-hazardous import is refused even when the only movement of the other
    hazard class belongs to a product whose stock is back at zero.
   */
  lemma HistoricalMovementBlocksImport(acid: Product, flour: Product, rice: Product, q: real)
    requires acid.isHazardous && !flour.isHazardous && !rice.isHazardous
    ensures var products := map[1 := acid, 2 := flour, 3 := rice];
            var log := [Movement(7, 1, q, Import, "d1"), Movement(7, 1, q, Export, "d2"), Movement(7, 2, 5.0, Import, "d3")];
            Stock(log, 7, 1) == 0.0
            && Stock(log, 7, 2) == 5.0
            && Decide(products, log, Movement(7, 3, 1.0, Import, "d4")) == Rejected(HazardConflict)
  {
    var products := map[1 := acid, 2 := flour, 3 := rice];
    var m0, m1, m2 := Movement(7, 1, q, Import, "d1"), Movement(7, 1, q, Export, "d2"), Movement(7, 2, 5.0, Import, "d3");
    var log := [m0, m1, m2];
    HistoricalLogStocks(q);
    HistoricalLogConflicts(products, q);
  }

  /** Exporting exactly the stock on hand is accepted and empties the pair; a larger export is refused. */
  lemma ExportUpToStock()
    ensures var products := map[5 := Product("bolt", 0.5, false)];
            var log := [Movement(2, 5, 10.0, Import, "d1")];
            Decide(products, log, Movement(2, 5, 15.0, Export, "d2")) == Rejected(InsufficientStock)
            && Decide(products, log, Movement(2, 5, 10.0, Export, "d2")).Created?
            && Stock(Next(products, log, Movement(2, 5, 10.0, Export, "d2")), 2, 5) == 0.0
  {
    var products := map[5 := Product("bolt", 0.5, false)];
    var log := [Movement(2, 5, 10.0, Import, "d1")];
    var m := Movement(2, 5, 10.0, Export, "d2");
    assert log[..0] == [];
    StockAfterMove(products, log, m, 2, 5);
  }
}
