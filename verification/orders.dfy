/** OrderService: order creation (total and stock decrement), status updates and
    cancellation (stock restore). */
module Orders {
  import opened Common
  import opened JavaNum
  import opened Entities
  import opened Store

  /** One product's stock moves by `delta` in Java `int` arithmetic; a missing product is skipped. */
  function AdjustStock(products: map<Id, Product>, id: Id, delta: int): map<Id, Product> {
    if id in products then
      products[id := products[id].(stockQuantity := Wrap32(products[id].stockQuantity + delta))]
    else products
  }

  /** The item loop: each item in turn moves its product's stock by `sign` times its quantity. */
  function AdjustAll(products: map<Id, Product>, items: seq<OrderItem>, sign: int): map<Id, Product>
    decreases |items|
  {
    if |items| == 0 then products
    else AdjustAll(AdjustStock(products, items[0].productId, sign * items[0].quantity), items[1..], sign)
  }

  /** How many units of product `id` the items ask for in total. */
  function QuantityOf(items: seq<OrderItem>, id: Id): int {
    if |items| == 0 then 0
    else (if items[0].productId == id then items[0].quantity else 0) + QuantityOf(items[1..], id)
  }

  /** The net effect of the item loop, product by product: each existing product moves by the
      total quantity ordered of it, nothing is added or removed, and no other field changes. */
  lemma {:induction false} AdjustAllEffect(products: map<Id, Product>, items: seq<OrderItem>, sign: int)
    ensures AdjustAll(products, items, sign).Keys == products.Keys
    ensures forall id :: id in products ==>
      AdjustAll(products, items, sign)[id]
        == products[id].(stockQuantity := Wrap32(products[id].stockQuantity + sign * QuantityOf(items, id)))
  {
    if |items| == 0 {
      forall id | id in products
        ensures Wrap32(products[id].stockQuantity + sign * QuantityOf(items, id)) == products[id].stockQuantity
      {
        Wrap32Id(products[id].stockQuantity);
      }
    } else {
      var head := items[0];
      var next := AdjustStock(products, head.productId, sign * head.quantity);
      AdjustAllEffect(next, items[1..], sign);
      forall id | id in products
        ensures AdjustAll(products, items, sign)[id]
          == products[id].(stockQuantity := Wrap32(products[id].stockQuantity + sign * QuantityOf(items, id)))
      {
        var s := products[id].stockQuantity;
        var rest := QuantityOf(items[1..], id);
        if id == head.productId {
          Wrap32Add(s + sign * head.quantity, sign * rest);
          assert sign * QuantityOf(items, id) == sign * head.quantity + sign * rest;
        }
      }
    }
  }

  /** Item lists that agree on products and quantities ask for the same amounts. */
  lemma {:induction false} QuantityOfSameLines(a: seq<OrderItem>, b: seq<OrderItem>, id: Id)
    requires |a| == |b|
    requires forall i :: 0 <= i < |a| ==> a[i].productId == b[i].productId && a[i].quantity == b[i].quantity
    ensures QuantityOf(a, id) == QuantityOf(b, id)
  {
    if |a| > 0 {
      QuantityOfSameLines(a[1..], b[1..], id);
    }
  }

  /** Sum of the items' subtotals. */
  function SubtotalSum(items: seq<OrderItem>): real {
    if |items| == 0 then 0.0 else items[0].subtotal + SubtotalSum(items[1..])
  }

  /** `item.setOrder(order)` followed by `item.calculateSubtotal()`; how the subtotal is
      computed belongs to OrderItem, so it is a parameter. */
  function LinkItem(item: OrderItem, id: Id, calculateSubtotal: OrderItem -> real): OrderItem {
    var linked := item.(order := Some(id));
    linked.(subtotal := calculateSubtotal(linked))
  }

  /** `createOrder`: every item is linked to the order and its subtotal recomputed, the total is
      the sum of those subtotals, each item's product (when it exists) loses the item's quantity,
      and the order is saved under the key the identity column issues. */
  function CreateOrder(db: Db, id: Id, order: Order, calculateSubtotal: OrderItem -> real): (r: Db)
    ensures r.orders.Keys == db.orders.Keys + {id}
    ensures forall k :: k in db.orders && k != id ==> r.orders[k] == db.orders[k]
    ensures |r.orders[id].items| == |order.items|
    ensures forall i :: 0 <= i < |order.items| ==>
      && r.orders[id].items[i].order == Some(id)
      && r.orders[id].items[i].subtotal == calculateSubtotal(order.items[i].(order := Some(id)))
      && r.orders[id].items[i].(order := order.items[i].order, subtotal := order.items[i].subtotal) == order.items[i]
    ensures r.orders[id].totalAmount == SubtotalSum(r.orders[id].items)
    ensures r.orders[id].(items := order.items, totalAmount := order.totalAmount) == order
    ensures r.products == AdjustAll(db.products, order.items, -1)
    ensures r.payments == db.payments
  {
    var items := seq(|order.items|, i requires 0 <= i < |order.items| => LinkItem(order.items[i], id, calculateSubtotal));
    var saved := order.(items := items, totalAmount := SubtotalSum(items));
    Db(db.orders[id := saved], db.payments, AdjustAll(db.products, order.items, -1))
  }

  /** `updateOrderStatus`: only the status of an existing order changes; a missing id throws. */
  function UpdateOrderStatus(db: Db, id: Id, status: OrderStatus): (r: Result<Db>)
    ensures r.Err? <==> id !in db.orders
    ensures r.Err? ==> r.error == OrderNotFound
    ensures r.Ok? ==> r.value.orders.Keys == db.orders.Keys
    ensures r.Ok? ==> r.value.orders[id].status == status
    ensures r.Ok? ==> r.value.orders[id].(status := db.orders[id].status) == db.orders[id]
    ensures r.Ok? ==> forall k :: k in db.orders && k != id ==> r.value.orders[k] == db.orders[k]
    ensures r.Ok? ==> r.value.payments == db.payments && r.value.products == db.products
  {
    if id !in db.orders then Err(OrderNotFound)
    else Ok(db.(orders := db.orders[id := db.orders[id].(status := status)]))
  }

  /** `cancelOrder`: a missing id changes nothing; otherwise the order becomes CANCELLED and each
      item's quantity goes back to its product. Nothing checks that the order was not already
      cancelled. */
  function CancelOrder(db: Db, id: Id): (r: Db)
    ensures id !in db.orders ==> r == db
    ensures id in db.orders ==> r.orders == db.orders[id := db.orders[id].(status := Cancelled)]
    ensures id in db.orders ==> r.products == AdjustAll(db.products, db.orders[id].items, 1)
    ensures r.payments == db.payments
  {
    if id !in db.orders then db
    else
      var order := db.orders[id];
      Db(db.orders[id := order.(status := Cancelled)], db.payments, AdjustAll(db.products, order.items, 1))
  }

  /** Creating an order and then cancelling it gives every product its stock back. */
  lemma CreateThenCancelRestoresStock(db: Db, id: Id, order: Order, calculateSubtotal: OrderItem -> real)
    ensures CancelOrder(CreateOrder(db, id, order, calculateSubtotal), id).products == db.products
  {
    var created := CreateOrder(db, id, order, calculateSubtotal);
    var saved := created.orders[id];
    var after := CancelOrder(created, id).products;
    AdjustAllEffect(db.products, order.items, -1);
    AdjustAllEffect(created.products, saved.items, 1);
    forall k | k in db.products
      ensures after[k] == db.products[k]
    {
      var s := db.products[k].stockQuantity;
      QuantityOfSameLines(saved.items, order.items, k);
      var q := QuantityOf(order.items, k);
      Wrap32Add(s + -1 * q, 1 * q);
      Wrap32Id(s);
    }
    assert after.Keys == db.products.Keys;
  }

  /** Cancelling twice restores the stock twice. */
  lemma CancelTwiceRestoresTwice(db: Db, id: Id)
    requires id in db.orders
    ensures var twice := CancelOrder(CancelOrder(db, id), id).products;
            var items := db.orders[id].items;
            twice.Keys == db.products.Keys
            && forall k :: k in db.products ==>
                 twice[k] == db.products[k].(stockQuantity := Wrap32(db.products[k].stockQuantity + 2 * QuantityOf(items, k)))
  {
    var once := CancelOrder(db, id);
    var items := db.orders[id].items;
    AdjustAllEffect(db.products, items, 1);
    AdjustAllEffect(once.products, items, 1);
    forall k | k in db.products
      ensures Wrap32(once.products[k].stockQuantity + QuantityOf(items, k))
              == Wrap32(db.products[k].stockQuantity + 2 * QuantityOf(items, k))
    {
      Wrap32Add(db.products[k].stockQuantity + QuantityOf(items, k), QuantityOf(items, k));
    }
  }

  /** So cancellation is not idempotent: one order line of two units, cancelled twice, puts
      four units back. */
  lemma CancelNotIdempotent()
    ensures var p := Product("Street Cap", 35.99, "", "", "Accessories", 5, Some(true));
            var item := OrderItem(1, 2, 35.99, 71.98, Some(7));
            var order := Order([item], 71.98, 71.98, None, Created);
            var db := Db(map[7 := order], map[], map[1 := p]);
            && 1 in CancelOrder(db, 7).products
            && CancelOrder(db, 7).products[1].stockQuantity == 7
            && 1 in CancelOrder(CancelOrder(db, 7), 7).products
            && CancelOrder(CancelOrder(db, 7), 7).products[1].stockQuantity == 9
  {
    var p := Product("Street Cap", 35.99, "", "", "Accessories", 5, Some(true));
    var item := OrderItem(1, 2, 35.99, 71.98, Some(7));
    var order := Order([item], 71.98, 71.98, None, Created);
    var db := Db(map[7 := order], map[], map[1 := p]);
    CancelTwiceRestoresTwice(db, 7);
    AdjustAllEffect(db.products, [item], 1);
    assert QuantityOf([item], 1) == 2;
  }
}
