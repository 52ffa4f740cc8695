/**
  The stock-movement log and the aggregates computed from it.

  A movement records that some quantity of a product was imported into, or
  exported from, a warehouse. The log is append-only. `InPair` and
  `InWarehouse` are the two movement queries the mutation sends to the store
  (all movements of one (warehouse, product) pair; all movements of one
  warehouse), `NotIn` is the in-memory filter that drops the requested
  product from the warehouse's movements, and `Net` is the signed sum both
  the `forEach` loop and the `reduce` compute. Each filter keeps every
  matching movement as often as the log holds it. Every recursion peels off the LAST
  element, matching a log that only grows at its end.
 */
module Movements {

  datatype Kind = Import | Export

  /** A product record; its id is the key of the product table. */
  datatype Product = Product(name: string, sizePerUnit: real, isHazardous: bool)

  /** A movement as stored, without the id the store assigns to it. */
  datatype Movement = Movement(warehouseId: int, productId: int, quantity: real, kind: Kind, date: string)

  /** An import adds its quantity, an export subtracts it. */
  function Signed(m: Movement): real {
    if m.kind == Import then m.quantity else -m.quantity
  }

  /** Sum of the signed quantities of a list of movements. */
  function Net(ms: seq<Movement>): real {
    if ms == [] then 0.0 else Net(ms[..|ms| - 1]) + Signed(ms[|ms| - 1])
  }

  /** Sum of the quantities of the imports of one (warehouse, product) pair. */
  function Imported(ms: seq<Movement>, w: int, p: int): real {
    if ms == [] then 0.0
    else
      var m := ms[|ms| - 1];
      Imported(ms[..|ms| - 1], w, p) + (if m.warehouseId == w && m.productId == p && m.kind == Import then m.quantity else 0.0)
  }

  /** Sum of the quantities of the exports of one (warehouse, product) pair. */
  function Exported(ms: seq<Movement>, w: int, p: int): real {
    if ms == [] then 0.0
    else
      var m := ms[|ms| - 1];
      Exported(ms[..|ms| - 1], w, p) + (if m.warehouseId == w && m.productId == p && m.kind == Export then m.quantity else 0.0)
  }

  /** The movements of one warehouse, in log order. */
  function InWarehouse(ms: seq<Movement>, w: int): (r: seq<Movement>)
    ensures |r| <= |ms|
    ensures forall m :: m in r <==> m in ms && m.warehouseId == w
    ensures forall m {:trigger multiset(r)[m]} :: multiset(r)[m] == if m.warehouseId == w then multiset(ms)[m] else 0
  {
    if ms == [] then []
    else
      var last := ms[|ms| - 1];
      assert ms == ms[..|ms| - 1] + [last];
      var rest := InWarehouse(ms[..|ms| - 1], w);
      if last.warehouseId == w then rest + [last] else rest
  }

  /** The movements of one (warehouse, product) pair, in log order. */
  function InPair(ms: seq<Movement>, w: int, p: int): (r: seq<Movement>)
    ensures |r| <= |ms|
    ensures forall m :: m in r <==> m in ms && m.warehouseId == w && m.productId == p
    ensures forall m {:trigger multiset(r)[m]} :: multiset(r)[m] == if m.warehouseId == w && m.productId == p then multiset(ms)[m] else 0
  {
    if ms == [] then []
    else
      var last := ms[|ms| - 1];
      assert ms == ms[..|ms| - 1] + [last];
      var rest := InPair(ms[..|ms| - 1], w, p);
      if last.warehouseId == w && last.productId == p then rest + [last] else rest
  }

  /** The movements of one product, in log order. */
  function InProduct(ms: seq<Movement>, p: int): (r: seq<Movement>)
    ensures |r| <= |ms|
    ensures forall m :: m in r <==> m in ms && m.productId == p
    ensures forall m {:trigger multiset(r)[m]} :: multiset(r)[m] == if m.productId == p then multiset(ms)[m] else 0
  {
    if ms == [] then []
    else
      var last := ms[|ms| - 1];
      assert ms == ms[..|ms| - 1] + [last];
      var rest := InProduct(ms[..|ms| - 1], p);
      if last.productId == p then rest + [last] else rest
  }

  /** The movements whose product is not in `excluded`, in log order. */
  function NotIn(ms: seq<Movement>, excluded: set<int>): (r: seq<Movement>)
    ensures |r| <= |ms|
    ensures forall m :: m in r <==> m in ms && m.productId !in excluded
    ensures forall m {:trigger multiset(r)[m]} :: multiset(r)[m] == if m.productId !in excluded then multiset(ms)[m] else 0
  {
    if ms == [] then []
    else
      var last := ms[|ms| - 1];
      assert ms == ms[..|ms| - 1] + [last];
      var rest := NotIn(ms[..|ms| - 1], excluded);
      if last.productId !in excluded then rest + [last] else rest
  }

  /** The current stock of a product in a warehouse. */
  function Stock(ms: seq<Movement>, w: int, p: int): real {
    Net(InPair(ms, w, p))
  }

  /** The aggregate net stock of every product of warehouse `w` except `p`. */
  function OtherStock(ms: seq<Movement>, w: int, p: int): real {
    Net(NotIn(InWarehouse(ms, w), {p}))
  }

  /** The ids of the products a list of movements references. */
  function ProductIds(ms: seq<Movement>): (ids: set<int>)
    ensures forall m :: m in ms ==> m.productId in ids
  {
    set m | m in ms :: m.productId
  }

  lemma NetSnoc(ms: seq<Movement>, m: Movement)
    ensures Net(ms + [m]) == Net(ms) + Signed(m)
  {
    assert (ms + [m])[..|ms|] == ms;
  }

  /**
    The current stock is everything imported minus everything exported for
    that pair, over exactly the movements of that pair.
   */
  lemma {:induction false} StockIsImportsMinusExports(ms: seq<Movement>, w: int, p: int)
    ensures Stock(ms, w, p) == Imported(ms, w, p) - Exported(ms, w, p)
    decreases |ms|
  {
    if ms != [] {
      var init, last := ms[..|ms| - 1], ms[|ms| - 1];
      StockIsImportsMinusExports(init, w, p);
      if last.warehouseId == w && last.productId == p {
        NetSnoc(InPair(init, w, p), last);
      }
    }
  }

  /** Appending a movement changes the stock of its own pair by its signed quantity, and no other. */
  lemma {:induction false} StockAppend(ms: seq<Movement>, m: Movement, w: int, p: int)
    ensures Stock(ms + [m], w, p) == Stock(ms, w, p) + (if m.warehouseId == w && m.productId == p then Signed(m) else 0.0)
  {
    assert (ms + [m])[..|ms|] == ms;
    if m.warehouseId == w && m.productId == p {
      NetSnoc(InPair(ms, w, p), m);
    }
  }

  /** A pair with nonzero stock has at least one movement. */
  lemma {:induction false} StockedPairHasMovement(ms: seq<Movement>, w: int, p: int)
    requires Stock(ms, w, p) != 0.0
    ensures exists m :: m in ms && m.warehouseId == w && m.productId == p
  {
    var pair := InPair(ms, w, p);
    assert pair != [];
    assert pair[0] in pair;
  }

  /** Filtering the warehouse view by product is the pair query. */
  lemma {:induction false} InPairFactors(ms: seq<Movement>, w: int, p: int)
    ensures InProduct(InWarehouse(ms, w), p) == InPair(ms, w, p)
    decreases |ms|
  {
    if ms != [] {
      var init, last := ms[..|ms| - 1], ms[|ms| - 1];
      InPairFactors(init, w, p);
      if last.warehouseId == w {
        assert (InWarehouse(init, w) + [last])[..|InWarehouse(init, w)|] == InWarehouse(init, w);
      }
    }
  }

  /** Restricting the warehouse view to the warehouse again changes nothing. */
  lemma {:induction false} InWarehouseIdempotent(ms: seq<Movement>, w: int)
    ensures InWarehouse(InWarehouse(ms, w), w) == InWarehouse(ms, w)
    decreases |ms|
  {
    if ms != [] {
      var init, last := ms[..|ms| - 1], ms[|ms| - 1];
      InWarehouseIdempotent(init, w);
      if last.warehouseId == w {
        assert (InWarehouse(init, w) + [last])[..|InWarehouse(init, w)|] == InWarehouse(init, w);
      }
    }
  }

  /** Dropping products outside `excluded` first does not change one product's movements. */
  lemma {:induction false} InProductNotIn(ms: seq<Movement>, excluded: set<int>, p: int)
    requires p !in excluded
    ensures InProduct(NotIn(ms, excluded), p) == InProduct(ms, p)
    decreases |ms|
  {
    if ms != [] {
      var init, last := ms[..|ms| - 1], ms[|ms| - 1];
      InProductNotIn(init, excluded, p);
      if last.productId !in excluded {
        assert (NotIn(init, excluded) + [last])[..|NotIn(init, excluded)|] == NotIn(init, excluded);
      }
    }
  }

  /** Excluding two sets of products one after the other excludes their union. */
  lemma {:induction false} NotInNotIn(ms: seq<Movement>, s: set<int>, t: set<int>)
    ensures NotIn(NotIn(ms, s), t) == NotIn(ms, s + t)
    decreases |ms|
  {
    if ms != [] {
      var init, last := ms[..|ms| - 1], ms[|ms| - 1];
      NotInNotIn(init, s, t);
      if last.productId !in s {
        assert (NotIn(init, s) + [last])[..|NotIn(init, s)|] == NotIn(init, s);
      }
    }
  }

  /** The net of a list is the net of one product plus the net of all others. */
  lemma {:induction false} NetSplit(ms: seq<Movement>, p: int)
    ensures Net(ms) == Net(InProduct(ms, p)) + Net(NotIn(ms, {p}))
    decreases |ms|
  {
    if ms != [] {
      var init, last := ms[..|ms| - 1], ms[|ms| - 1];
      NetSplit(init, p);
      if last.productId == p {
        NetSnoc(InProduct(init, p), last);
      } else {
        NetSnoc(NotIn(init, {p}), last);
      }
    }
  }

  /** The net stock of a warehouse is the stock of `p` plus the aggregate of the other products. */
  lemma {:induction false} WarehouseSplit(ms: seq<Movement>, w: int, p: int)
    ensures Net(InWarehouse(ms, w)) == Stock(ms, w, p) + OtherStock(ms, w, p)
  {
    NetSplit(InWarehouse(ms, w), p);
    InPairFactors(ms, w, p);
  }

  /** A filter that excludes every product a list references leaves nothing. */
  lemma {:induction false} NotInCovered(ms: seq<Movement>, excluded: set<int>)
    requires forall m :: m in ms ==> m.productId in excluded
    ensures NotIn(ms, excluded) == []
    decreases |ms|
  {
    if ms != [] {
      assert ms == ms[..|ms| - 1] + [ms[|ms| - 1]];
      NotInCovered(ms[..|ms| - 1], excluded);
    }
  }

  /** A warehouse filter over movements all of that warehouse keeps them all. */
  lemma {:induction false} InWarehouseAll(ms: seq<Movement>, w: int)
    requires forall m :: m in ms ==> m.warehouseId == w
    ensures InWarehouse(ms, w) == ms
    decreases |ms|
  {
    if ms != [] {
      assert ms == ms[..|ms| - 1] + [ms[|ms| - 1]];
      InWarehouseAll(ms[..|ms| - 1], w);
    }
  }

  /** A product exclusion that no movement falls under keeps them all. */
  lemma {:induction false} NotInNone(ms: seq<Movement>, excluded: set<int>)
    requires forall m :: m in ms ==> m.productId !in excluded
    ensures NotIn(ms, excluded) == ms
    decreases |ms|
  {
    if ms != [] {
      assert ms == ms[..|ms| - 1] + [ms[|ms| - 1]];
      NotInNone(ms[..|ms| - 1], excluded);
    }
  }

  /**
    When every product has non-negative net stock in a list, so does any
    group of products: the net of the list without `excluded` is non-negative.
   */
  lemma {:induction false} NetOfRestNonNegative(ms: seq<Movement>, excluded: set<int>)
    requires forall p :: Net(InProduct(ms, p)) >= 0.0
    ensures Net(NotIn(ms, excluded)) >= 0.0
    decreases ProductIds(ms) - excluded
  {
    var left := ProductIds(ms) - excluded;
    if left == {} {
      forall m | m in ms ensures m.productId in excluded {
        assert m.productId !in left;
      }
      NotInCovered(ms, excluded);
    } else {
      var p :| p in left;
      var rest := NotIn(ms, excluded);
      NetSplit(rest, p);
      InProductNotIn(ms, excluded, p);
      NotInNotIn(ms, excluded, {p});
      NetOfRestNonNegative(ms, excluded + {p});
    }
  }

  /**
    When no pair of the warehouse has negative stock, the aggregate stock of
    the products other than `p` is at least the stock of any one of them.
   */
  lemma OtherStockDominates(ms: seq<Movement>, w: int, p: int, q: int)
    requires forall p' :: Stock(ms, w, p') >= 0.0
    requires q != p
    ensures OtherStock(ms, w, p) >= Stock(ms, w, q)
  {
    var inWarehouse := InWarehouse(ms, w);
    var others := NotIn(inWarehouse, {p});
    forall p' ensures Net(InProduct(inWarehouse, p')) >= 0.0 {
      InPairFactors(ms, w, p');
      assert Stock(ms, w, p') >= 0.0;
    }
    NetOfRestNonNegative(inWarehouse, {p} + {q});
    NetSplit(others, q);
    InProductNotIn(inWarehouse, {p}, q);
    InPairFactors(ms, w, q);
    NotInNotIn(inWarehouse, {p}, {q});
    assert OtherStock(ms, w, p) == Net(others);
  }
}
