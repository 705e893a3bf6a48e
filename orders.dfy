/**
 * The order routes of the API: `POST /orders`, which checks that every
 * referenced product exists, stamps each item with its product's stored price,
 * totals the order and saves it under a fresh auto-increment id, and
 * `GET /orders/:id`, which returns a stored order or 404.
 */
module Orders {

  const OK := 200
  const CREATED := 201
  const NOT_FOUND := 404
  const UNPROCESSABLE_ENTITY := 422
  /** `ERRORS.API.ORDER.PRODUCT_NOT_FOUND`. */
  const PRODUCT_NOT_FOUND := 20001

  /** One item of the request body. */
  datatype OrderItem = OrderItem(productId: int, quantity: int)

  /** One item of a stored order: the request item plus the product's price at order time. */
  datatype PricedItem = PricedItem(productId: int, quantity: int, productPrice: int)

  /** A stored order (its id is the key it is stored under). */
  datatype Order = Order(date: string, items: seq<PricedItem>, totalPrice: int)

  datatype PostResponse =
    | Created(status: int, id: int, order: Order)
    | Failed(status: int, errorCode: int)

  datatype GetResponse =
    | Found(status: int, order: Order)
    | NotFound(status: int)

  // ---------------------------------------------------------------------------
  // The existence check
  // ---------------------------------------------------------------------------

  /** `req.body.items.map(item => item.productId)`. */
  function ProductIds(items: seq<OrderItem>): (ids: seq<int>)
    ensures |ids| == |items| && forall i :: 0 <= i < |items| ==> ids[i] == items[i].productId
  {
    if items == [] then [] else [items[0].productId] + ProductIds(items[1..])
  }

  predicate Distinct(ids: seq<int>) {
    forall i, j :: 0 <= i < j < |ids| ==> ids[i] != ids[j]
  }

  /**
   * The stored products whose id is in the list (`find().where('_id').in(ids)`):
   * exactly the requested ids that name a stored product, each at most once,
   * so never more than the list has entries.
   */
  function Matched(products: map<int, int>, ids: seq<int>): (found: set<int>)
    ensures forall id :: id in found <==> id in ids && id in products
    ensures |found| <= |ids|
  {
    var found := set id | id in ids && id in products;
    ElementsCount(ids);
    SubsetSize(found, set id | id in ids);
    found
  }

  /** The handler's check: as many matched products as requested items. */
  predicate AllProductsFound(products: map<int, int>, items: seq<OrderItem>) {
    |Matched(products, ProductIds(items))| == |items|
  }

  /** Prefixing an id that the rest does not contain keeps distinctness as it was. */
  lemma DistinctCons(ids: seq<int>)
    requires ids != [] && ids[0] !in ids[1..]
    ensures Distinct(ids) <==> Distinct(ids[1..])
  {
    var rest := ids[1..];
    if Distinct(rest) {
      forall i, j | 0 <= i < j < |ids| ensures ids[i] != ids[j] {
        if i > 0 { assert ids[i] == rest[i - 1] && ids[j] == rest[j - 1]; }
        else { assert ids[j] in rest; }
      }
    }
    if Distinct(ids) {
      forall i, j | 0 <= i < j < |rest| ensures rest[i] != rest[j] {
        assert rest[i] == ids[i + 1] && rest[j] == ids[j + 1];
      }
    }
  }

  /** A list has at most as many different ids as entries, and as many exactly when no id repeats. */
  lemma {:induction false} ElementsCount(ids: seq<int>)
    ensures |set id | id in ids| <= |ids|
    ensures |set id | id in ids| == |ids| <==> Distinct(ids)
    decreases |ids|
  {
    if ids != [] {
      var rest := ids[1..];
      ElementsCount(rest);
      assert (set id | id in ids) == (set id | id in rest) + {ids[0]} by {
        assert ids == [ids[0]] + rest;
      }
      if ids[0] in rest {
        var j :| 0 <= j < |rest| && rest[j] == ids[0];
        assert ids[0] == ids[j + 1];
      } else {
        DistinctCons(ids);
      }
    }
  }

  /** A subset is no larger than its superset, and of equal size only when equal. */
  lemma SubsetSize(a: set<int>, b: set<int>)
    requires a <= b
    ensures |a| <= |b|
    ensures |a| == |b| ==> a == b
  {
    assert a + (b - a) == b;
    assert a * (b - a) == {};
    assert |b| == |a| + |b - a|;
    if |a| == |b| {
      assert b - a == {};
    }
  }

  /** Every requested id names a stored product. */
  predicate AllKnown(products: map<int, int>, items: seq<OrderItem>) {
    forall i :: 0 <= i < |items| ==> items[i].productId in products
  }

  lemma CheckPassesOnlyForKnownDistinct(products: map<int, int>, items: seq<OrderItem>)
    requires AllProductsFound(products, items)
    ensures AllKnown(products, items) && Distinct(ProductIds(items))
  {
    var ids := ProductIds(items);
    var all := set id | id in ids;
    var found := Matched(products, ids);
    ElementsCount(ids);
    SubsetSize(found, all);
    forall i | 0 <= i < |items| ensures items[i].productId in products {
      assert ids[i] in all;
    }
  }

  lemma CheckPassesForKnownDistinct(products: map<int, int>, items: seq<OrderItem>)
    requires AllKnown(products, items) && Distinct(ProductIds(items))
    ensures AllProductsFound(products, items)
  {
    var ids := ProductIds(items);
    var all := set id | id in ids;
    ElementsCount(ids);
    forall id | id in all ensures id in Matched(products, ids) {
      var i :| 0 <= i < |ids| && ids[i] == id;
    }
    assert Matched(products, ids) == all;
  }

  /**
   * The count check passes exactly when every requested id names a stored
   * product and no id is requested twice: an order that lists the same
   * product twice is rejected like one that names a missing product.
   */
  lemma ExistenceCheck(products: map<int, int>, items: seq<OrderItem>)
    ensures AllProductsFound(products, items) <==> AllKnown(products, items) && Distinct(ProductIds(items))
  {
    if AllProductsFound(products, items) {
      CheckPassesOnlyForKnownDistinct(products, items);
    }
    if AllKnown(products, items) && Distinct(ProductIds(items)) {
      CheckPassesForKnownDistinct(products, items);
    }
  }

  // ---------------------------------------------------------------------------
  // Price merge and total
  // ---------------------------------------------------------------------------

  /**
   * The `_.map`/`_.extend` merge: each item keeps its product id and quantity,
   * in the same order, and gains `productPrice` from the product table.
   */
  function StampPrices(items: seq<OrderItem>, products: map<int, int>): (r: seq<PricedItem>)
    requires AllKnown(products, items)
    ensures |r| == |items|
    ensures forall i :: 0 <= i < |items| ==>
              r[i] == PricedItem(items[i].productId, items[i].quantity, products[items[i].productId])
  {
    if items == [] then []
    else [PricedItem(items[0].productId, items[0].quantity, products[items[0].productId])]
         + StampPrices(items[1..], products)
  }

  /** The amount of an order: the sum over its items of price times quantity. */
  function LineSum(items: seq<PricedItem>): int {
    if items == [] then 0 else items[0].productPrice * items[0].quantity + LineSum(items[1..])
  }

  /**
   * `items.reduce((acc, p) => acc + p.productPrice * p.quantity, acc)`: the
   * left fold from `acc` adds the order's amount to `acc`.
   */
  function Reduce(items: seq<PricedItem>, acc: int): (total: int)
    ensures total == acc + LineSum(items)
    decreases |items|
  {
    if items == [] then acc else Reduce(items[1..], acc + items[0].productPrice * items[0].quantity)
  }

  /**
   * The scenario of the API's integration tests: a single item of 10 units of
   * product 12345, stored at price 100, is stamped with 100 and totals 1000;
   * naming a product that does not exist fails the check, and an empty item
   * list passes it.
   */
  lemma PostScenario()
    ensures AllProductsFound(map[12345 := 100], [OrderItem(12345, 10)])
    ensures AllProductsFound(map[12345 := 100], [])
    ensures StampPrices([OrderItem(12345, 10)], map[12345 := 100]) == [PricedItem(12345, 10, 100)]
    ensures Reduce([PricedItem(12345, 10, 100)], 0) == 1000
    ensures !AllProductsFound(map[12345 := 100], [OrderItem(1234567890, 10)])
  {
    ExistenceCheck(map[12345 := 100], [OrderItem(12345, 10)]);
    ExistenceCheck(map[12345 := 100], [OrderItem(1234567890, 10)]);
  }

  // ---------------------------------------------------------------------------
  // The store and the two handlers
  // ---------------------------------------------------------------------------

  /** The products and orders collections as the order routes use them. */
  class OrderStore {
    /** Product id to stored price. */
    var products: map<int, int>
    var orders: map<int, Order>
    /** The auto-increment counter of the orders collection (starts at 1). */
    var nextId: int

    /**
     * Every stored order has an id below the counter, and its total is the
     * sum of its own stamped prices times quantities (so later price changes
     * of the products do not affect it).
     */
    ghost predicate Valid()
      reads this
    {
      && nextId >= 1
      && forall id :: id in orders ==> 1 <= id < nextId && orders[id].totalPrice == LineSum(orders[id].items)
    }

    constructor (products: map<int, int>)
      ensures Valid() && this.products == products && orders == map[] && nextId == 1
    {
      this.products := products;
      orders := map[];
      nextId := 1;
    }

    /**
     * `POST /orders`. The request body has already passed validation: every
     * quantity is at least 1. An empty item list passes the check (no ids, no
     * matches) and is saved with total 0.
     */
    method PostOrder(items: seq<OrderItem>, now: string) returns (resp: PostResponse)
      requires Valid()
      requires forall i :: 0 <= i < |items| ==> items[i].quantity >= 1
      modifies this`orders, this`nextId
      ensures Valid()
      ensures !AllProductsFound(products, items) ==>
                && resp == Failed(UNPROCESSABLE_ENTITY, PRODUCT_NOT_FOUND)
                && orders == old(orders) && nextId == old(nextId)
      ensures AllProductsFound(products, items) ==>
                && resp.Created? && resp.status == CREATED
                && resp.id == old(nextId) && resp.id !in old(orders)
                && orders == old(orders)[resp.id := resp.order] && nextId == old(nextId) + 1
                && resp.order.date == now
                && |resp.order.items| == |items|
                && AllKnown(products, items)
                && (forall i :: 0 <= i < |items| ==>
                      resp.order.items[i] == PricedItem(items[i].productId, items[i].quantity, products[items[i].productId]))
                && resp.order.totalPrice == LineSum(resp.order.items)
    {
      var ids := ProductIds(items);
      var found := Matched(products, ids);
      if |found| != |ids| {
        return Failed(UNPROCESSABLE_ENTITY, PRODUCT_NOT_FOUND);
      }
      ExistenceCheck(products, items);
      var merged := StampPrices(items, products);
      var total := Reduce(merged, 0);
      var order := Order(now, merged, total);
      var id := nextId;
      orders := orders[id := order];
      nextId := nextId + 1;
      resp := Created(CREATED, id, order);
    }

    /** `GET /orders/:id`: the stored order, or 404 with no body. */
    method GetOrder(id: int) returns (resp: GetResponse)
      ensures id in orders ==> resp == Found(OK, orders[id])
      ensures id !in orders ==> resp == NotFound(NOT_FOUND)
    {
      if id !in orders {
        return NotFound(NOT_FOUND);
      }
      resp := Found(OK, orders[id]);
    }
  }
}
