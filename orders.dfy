/** `OrderService`: a PENDING order from a cart snapshot, its payment
    (stock re-checked, decremented, status PAID, cart cleared), and the
    order queries.  Each operation runs all its checks before its first
    write, so a failure leaves the store as it was. */
module Orders {
  import opened Outcomes
  import opened Tables
  import opened Checkout
  import Carts

  /** `createPendingOrder`.  An empty cart fails with "购物车为空"; otherwise
      the first line whose product is missing or short fails the call; on
      success one PENDING order and one frozen order line per cart line are
      stored, and neither stock nor cart changes.

      The source reads the cart through `getActiveCartItems`, which creates
      a missing cart; the transaction rolls that back when the empty cart
      then fails the call, so the model looks the cart up without
      creating it. */
  method CreatePendingOrder(st: Store, userId: nat) returns (r: Result<Order>)
    requires st.Valid()
    modifies st`orders, st`nextOrderId, st`orderItems, st`nextOrderItemId
    ensures st.Valid()
    ensures var lines := st.UserCartLines(userId);
            r.Err? <==> lines == [] || FirstShortfall(Wants(lines), 0, st.products).Some?
    ensures var lines := st.UserCartLines(userId);
            r.Err? ==>
              && r.error == (if lines == [] then EmptyCart else FirstShortfall(Wants(lines), 0, st.products).value)
              && unchanged(st)
    ensures var lines := st.UserCartLines(userId);
            r.Ok? ==>
              && (forall i :: 0 <= i < |lines| ==>
                    lines[i].productId in st.products && st.products[lines[i].productId].stock >= lines[i].quantity)
              && OrderPlaced(st, userId, lines, r.value)
  {
    var found := FindCart(st.carts, userId, st.nextCartId);
    var lines := if found.Some? then CartLines(st.cartItems, found.value.id, st.nextCartItemId) else [];
    if lines == [] {
      return Err(EmptyCart);
    }
    var problem, total := CheckCartLines(st, lines);
    if problem.Some? {
      return Err(problem.value);
    }
    assert lines == st.UserCartLines(userId);
    UserCartLinesStored(st, userId);
    var order := PlaceOrder(st, userId, lines, total);
    r := Ok(order);
  }

  /** What a successful `createPendingOrder` leaves behind: one new PENDING
      order under the next order id, priced at the cart's total, and after it
      one order line per cart line, numbered from the next order-line id,
      whose total and whose demand are the cart's. */
  twostate predicate OrderPlaced(st: Store, userId: nat, lines: seq<CartItem>, order: Order)
    reads st
  {
    && (forall i :: 0 <= i < |lines| ==> lines[i].productId in st.products)
    && order == Order(old(st.nextOrderId), userId, PENDING, CartTotal(lines, st.products))
    && order.id !in old(st.orders)
    && st.orders == old(st.orders)[order.id := order]
    && st.nextOrderId == old(st.nextOrderId) + 1
    && st.orderItems == SaveAll(old(st.orderItems), Snapshot(order.id, old(st.nextOrderItemId), lines, st.products))
    && st.nextOrderItemId == old(st.nextOrderItemId) + |lines|
    && st.OrderLinesOf(order.id) == Snapshot(order.id, old(st.nextOrderItemId), lines, st.products)
    && ItemsTotal(st.OrderLinesOf(order.id)) == order.totalPrice
    && OrderWants(st.OrderLinesOf(order.id)) == Wants(lines)
  }

  /** The writes of `createPendingOrder` once every check has passed: the
      order stored under the next order id, its lines saved after it. */
  method PlaceOrder(st: Store, userId: nat, lines: seq<CartItem>, total: int) returns (order: Order)
    requires st.Valid()
    requires forall i :: 0 <= i < |lines| ==> lines[i].productId in st.products && lines[i].quantity > 0
    requires total == CartTotal(lines, st.products)
    modifies st`orders, st`nextOrderId, st`orderItems, st`nextOrderItemId
    ensures st.Valid()
    ensures order.totalPrice == total
    ensures OrderPlaced(st, userId, lines, order)
  {
    ghost var firstId := st.nextOrderItemId;
    ghost var before := st.orderItems;
    ghost var snapshot := Snapshot(st.nextOrderId, firstId, lines, st.products);
    SnapshotSaved(before, st.nextOrderId, firstId, lines, st.products);

    order := SaveOrder(st, userId, total);
    SaveSnapshot(st, order.id, lines);
    assert st.OrderLinesOf(order.id) == OrderLines(SaveAll(before, snapshot), order.id, firstId + |lines|);
  }

  /** The insert of the order row: a PENDING order under the next order id. */
  method SaveOrder(st: Store, userId: nat, total: int) returns (order: Order)
    requires st.Valid()
    modifies st`orders, st`nextOrderId
    ensures st.Valid()
    ensures order == Order(old(st.nextOrderId), userId, PENDING, total)
    ensures order.id !in old(st.orders)
    ensures st.orders == old(st.orders)[order.id := order]
    ensures st.nextOrderId == old(st.nextOrderId) + 1
  {
    order := Order(st.nextOrderId, userId, PENDING, total);
    st.orders := st.orders[order.id := order];
    st.nextOrderId := st.nextOrderId + 1;
  }

  /** The order's first loop: every cart line against the stock, in order,
      and the total of price times quantity. */
  method CheckCartLines(st: Store, lines: seq<CartItem>) returns (problem: Option<ShopError>, total: int)
    ensures problem == FirstShortfall(Wants(lines), 0, st.products)
    ensures problem.None? ==>
              && (forall i :: 0 <= i < |lines| ==>
                    lines[i].productId in st.products && st.products[lines[i].productId].stock >= lines[i].quantity)
              && total == CartTotal(lines, st.products)
  {
    ghost var wants := Wants(lines);
    total := 0;
    var i := 0;
    while i < |lines|
      invariant 0 <= i <= |lines|
      invariant forall j :: 0 <= j < i ==>
                  lines[j].productId in st.products && st.products[lines[j].productId].stock >= lines[j].quantity
      invariant FirstShortfall(wants, i, st.products) == FirstShortfall(wants, 0, st.products)
      invariant total == CartTotal(lines[..i], st.products)
    {
      var item := lines[i];
      if item.productId !in st.products {
        return Some(ProductNotFound), 0;
      }
      var product := st.products[item.productId];
      if product.stock < item.quantity {
        return Some(InsufficientStockFor(product.name)), 0;
      }
      assert lines[..i + 1][..i] == lines[..i];
      total := total + product.price * item.quantity;
      i := i + 1;
    }
    assert lines[..|lines|] == lines;
    problem := None;
  }

  /** The order's second loop: one order line per cart line, numbered from
      the next order-line id, with each product's current price frozen in. */
  method SaveSnapshot(st: Store, orderId: nat, lines: seq<CartItem>)
    requires st.Valid()
    requires orderId in st.orders
    requires forall i :: 0 <= i < |lines| ==> lines[i].productId in st.products && lines[i].quantity > 0
    modifies st`orderItems, st`nextOrderItemId
    ensures st.Valid()
    ensures st.orderItems == SaveAll(old(st.orderItems), Snapshot(orderId, old(st.nextOrderItemId), lines, st.products))
    ensures st.nextOrderItemId == old(st.nextOrderItemId) + |lines|
  {
    ghost var firstId := st.nextOrderItemId;
    ghost var snapshot := Snapshot(orderId, firstId, lines, st.products);
    var i := 0;
    while i < |lines|
      invariant 0 <= i <= |lines|
      invariant st.nextOrderItemId == firstId + i
      invariant st.orderItems == SaveAll(old(st.orderItems), snapshot[..i])
      invariant OrderItemTable(st.orderItems, st.nextOrderItemId, st.orders)
    {
      var item := lines[i];
      // The second lookup cannot fail: the check found every product and
      // nothing has been deleted since.
      var product := st.products[item.productId];
      var orderItem := OrderItem(st.nextOrderItemId, orderId, product.id, item.quantity, product.price);
      assert orderItem == snapshot[i];
      assert snapshot[..i + 1] == snapshot[..i] + [snapshot[i]];
      st.orderItems := st.orderItems[orderItem.id := orderItem];
      st.nextOrderItemId := st.nextOrderItemId + 1;
      i := i + 1;
    }
    assert snapshot[..|lines|] == snapshot;
  }

  /** The payment's stock re-check, as the source runs it: each order line on
      its own against the current stock. */
  method CheckEachLine(st: Store, lines: seq<OrderItem>) returns (problem: Option<ShopError>)
    ensures problem == FirstShortfall(OrderWants(lines), 0, st.products)
  {
    ghost var wants := OrderWants(lines);
    var i := 0;
    while i < |lines|
      invariant 0 <= i <= |lines|
      invariant FirstShortfall(wants, i, st.products) == FirstShortfall(wants, 0, st.products)
    {
      var item := lines[i];
      if item.productId !in st.products {
        return Some(ProductNotFound);
      }
      var product := st.products[item.productId];
      if product.stock < item.quantity {
        return Some(InsufficientStockFor(product.name));
      }
      i := i + 1;
    }
    problem := None;
  }

  /** The units of `productId` that all of `lines` ask for together. */
  method TotalDemand(lines: seq<OrderItem>, productId: nat) returns (d: int)
    ensures d == Demand(OrderWants(lines), productId)
  {
    ghost var wants := OrderWants(lines);
    d := 0;
    var i := 0;
    while i < |lines|
      invariant 0 <= i <= |lines|
      invariant d == Demand(wants[..i], productId)
    {
      assert wants[..i + 1][..i] == wants[..i];
      if lines[i].productId == productId {
        d := d + lines[i].quantity;
      }
      i := i + 1;
    }
    assert wants[..|lines|] == wants;
  }

  /** The corrected re-check: each line's product against the demand of the
      whole order. */
  method CheckAggregate(st: Store, lines: seq<OrderItem>) returns (problem: Option<ShopError>)
    ensures problem == FirstAggregateShortfall(OrderWants(lines), 0, st.products)
  {
    ghost var wants := OrderWants(lines);
    var i := 0;
    while i < |lines|
      invariant 0 <= i <= |lines|
      invariant FirstAggregateShortfall(wants, i, st.products) == FirstAggregateShortfall(wants, 0, st.products)
    {
      var item := lines[i];
      var demand := TotalDemand(lines, item.productId);
      if item.productId !in st.products {
        return Some(ProductNotFound);
      }
      var product := st.products[item.productId];
      if product.stock < demand {
        return Some(InsufficientStockFor(product.name));
      }
      i := i + 1;
    }
    problem := None;
  }

  /** The decrement loop: every line takes its quantity off the stock its
      product has at that moment, and the product is saved back. */
  method DecrementStock(st: Store, lines: seq<OrderItem>)
    requires st.Valid()
    requires forall i :: 0 <= i < |lines| ==> lines[i].productId in st.products
    modifies st`products
    ensures st.Valid()
    ensures st.products == Decremented(old(st.products), OrderWants(lines))
  {
    ghost var wants := OrderWants(lines);
    var i := 0;
    while i < |lines|
      invariant 0 <= i <= |lines|
      invariant st.products == Decremented(old(st.products), wants[..i])
      invariant ProductTable(st.products, st.nextProductId)
    {
      var item := lines[i];
      // This lookup cannot fail either: decrements keep every product.
      var product := st.products[item.productId];
      DecrementedStep(old(st.products), wants, i);
      st.products := st.products[item.productId := product.(stock := product.stock - item.quantity)];
      i := i + 1;
    }
    assert wants[..|lines|] == wants;
  }

  /** The writes of a payment once its checks have passed: the stock
      decrement, the status change to PAID and the payer's cart cleared. */
  method Fulfill(st: Store, orderId: nat, userId: nat, lines: seq<OrderItem>)
    requires st.Valid()
    requires orderId in st.orders
    requires forall i :: 0 <= i < |lines| ==> lines[i].productId in st.products
    modifies st`products, st`orders, st`carts, st`nextCartId, st`cartItems
    ensures st.Valid()
    ensures st.products == Decremented(old(st.products), OrderWants(lines))
    ensures st.orders == old(st.orders)[orderId := old(st.orders)[orderId].(status := PAID)]
    ensures st.UserCartLines(userId) == []
    ensures exists cart :: Carts.CartEnsured(st, userId, cart) && st.cartItems == Carts.WithoutCart(old(st.cartItems), cart.id)
  {
    DecrementStock(st, lines);
    st.orders := st.orders[orderId := st.orders[orderId].(status := PAID)];
    ghost var cart := Carts.ClearCart(st, userId);
  }

  /** `markPaidAndFulfillCart`, as written.  It fails, with nothing changed,
      on a missing order, on another user's order, on an order that is not
      PENDING (so a second payment always fails), and on the first line
      whose product is missing or whose stock is below that line's own
      quantity.  Otherwise the stock of each product drops by the total
      quantity of the lines naming it, the order becomes PAID and the
      payer's cart is emptied.  Because the check is per line, an order
      with two lines for one product can pass and drive the stock below
      zero (Checkout.PerLineCheckAdmitsNegativeStock); the stock stays
      non-negative when no product appears twice. */
  method MarkPaidAndFulfillCart(st: Store, orderId: nat, userId: nat) returns (r: Result<()>)
    requires st.Valid()
    modifies st`products, st`orders, st`carts, st`nextCartId, st`cartItems
    ensures st.Valid()
    ensures orderId !in old(st.orders) ==> r == Err(OrderNotFound)
    ensures orderId in old(st.orders) && old(st.orders)[orderId].userId != userId ==> r == Err(PaymentForbidden)
    ensures && orderId in old(st.orders) && old(st.orders)[orderId].userId == userId
            && old(st.orders)[orderId].status != PENDING
            ==> r == Err(NotPending)
    ensures && orderId in old(st.orders) && old(st.orders)[orderId].userId == userId
            && old(st.orders)[orderId].status == PENDING
            ==> r == (match FirstShortfall(OrderWants(st.OrderLinesOf(orderId)), 0, old(st.products))
                        case None => Ok(())
                        case Some(e) => Err(e))
    ensures r.Err? ==> unchanged(st)
    ensures r.Ok? ==>
              && EachLineInStock(OrderWants(st.OrderLinesOf(orderId)), old(st.products))
              && st.products == Decremented(old(st.products), OrderWants(st.OrderLinesOf(orderId)))
              && st.orders == old(st.orders)[orderId := old(st.orders)[orderId].(status := PAID)]
              && st.UserCartLines(userId) == []
    ensures r.Ok? ==> exists cart :: Carts.CartEnsured(st, userId, cart) && st.cartItems == Carts.WithoutCart(old(st.cartItems), cart.id)
    ensures && r.Ok? && StockNonNegative(old(st.products))
            && DistinctProducts(OrderWants(st.OrderLinesOf(orderId)))
            ==> StockNonNegative(st.products)
  {
    if orderId !in st.orders {
      return Err(OrderNotFound);
    }
    var order := st.orders[orderId];
    if order.userId != userId {
      return Err(PaymentForbidden);
    }
    if order.status != PENDING {
      return Err(NotPending);
    }
    var lines := OrderLines(st.orderItems, orderId, st.nextOrderItemId);
    ghost var wants := OrderWants(lines);
    var problem := CheckEachLine(st, lines);
    if problem.Some? {
      return Err(problem.value);
    }
    FirstShortfallNone(wants, st.products);
    if StockNonNegative(st.products) && DistinctProducts(wants) {
      DistinctLinesChecksAgree(st.products, wants);
      AggregateCheckKeepsStock(st.products, wants);
    }
    Fulfill(st, orderId, userId, lines);
    r := Ok(());
  }

  /** The payment with the re-check corrected to compare each product's
      stock with the demand of the whole order: the same error order and the
      same effect on success, and it keeps every stock non-negative. */
  method MarkPaidAndFulfillCartGuarded(st: Store, orderId: nat, userId: nat) returns (r: Result<()>)
    requires st.Valid()
    modifies st`products, st`orders, st`carts, st`nextCartId, st`cartItems
    ensures st.Valid()
    ensures orderId !in old(st.orders) ==> r == Err(OrderNotFound)
    ensures orderId in old(st.orders) && old(st.orders)[orderId].userId != userId ==> r == Err(PaymentForbidden)
    ensures && orderId in old(st.orders) && old(st.orders)[orderId].userId == userId
            && old(st.orders)[orderId].status != PENDING
            ==> r == Err(NotPending)
    ensures && orderId in old(st.orders) && old(st.orders)[orderId].userId == userId
            && old(st.orders)[orderId].status == PENDING
            ==> r == (match FirstAggregateShortfall(OrderWants(st.OrderLinesOf(orderId)), 0, old(st.products))
                        case None => Ok(())
                        case Some(e) => Err(e))
    ensures r.Err? ==> unchanged(st)
    ensures r.Ok? ==>
              && AggregateInStock(OrderWants(st.OrderLinesOf(orderId)), old(st.products))
              && st.products == Decremented(old(st.products), OrderWants(st.OrderLinesOf(orderId)))
              && st.orders == old(st.orders)[orderId := old(st.orders)[orderId].(status := PAID)]
              && st.UserCartLines(userId) == []
    ensures r.Ok? ==> exists cart :: Carts.CartEnsured(st, userId, cart) && st.cartItems == Carts.WithoutCart(old(st.cartItems), cart.id)
    ensures StockNonNegative(old(st.products)) ==> StockNonNegative(st.products)
  {
    if orderId !in st.orders {
      return Err(OrderNotFound);
    }
    var order := st.orders[orderId];
    if order.userId != userId {
      return Err(PaymentForbidden);
    }
    if order.status != PENDING {
      return Err(NotPending);
    }
    var lines := OrderLines(st.orderItems, orderId, st.nextOrderItemId);
    ghost var wants := OrderWants(lines);
    var problem := CheckAggregate(st, lines);
    if problem.Some? {
      return Err(problem.value);
    }
    FirstAggregateShortfallNone(wants, st.products);
    if StockNonNegative(st.products) {
      AggregateCheckKeepsStock(st.products, wants);
    }
    Fulfill(st, orderId, userId, lines);
    r := Ok(());
  }

  /** `updateStatus`: any status string replaces the old one; only a
      missing order fails. */
  method UpdateStatus(st: Store, orderId: nat, status: string) returns (r: Result<Order>)
    requires st.Valid()
    modifies st`orders
    ensures st.Valid()
    ensures r.Err? <==> orderId !in old(st.orders)
    ensures r.Err? ==> r.error == OrderNotFound && st.orders == old(st.orders)
    ensures r.Ok? ==>
              && r.value == old(st.orders)[orderId].(status := status)
              && st.orders == old(st.orders)[orderId := r.value]
  {
    if orderId !in st.orders {
      return Err(OrderNotFound);
    }
    var order := st.orders[orderId].(status := status);
    st.orders := st.orders[orderId := order];
    r := Ok(order);
  }

  datatype OrderLine = OrderLine(item: OrderItem, product: Product)
  datatype OrderDetail = OrderDetail(order: Order, lines: seq<OrderLine>)

  /** `getOrderById`: only the owner sees the order; every line comes with
      its product, and a line whose product has since been deleted fails
      the call with "商品不存在". */
  method GetOrderById(st: Store, id: nat, userId: nat) returns (r: Result<OrderDetail>)
    ensures var lines := st.OrderLinesOf(id);
            r.Ok? <==>
              && id in st.orders && st.orders[id].userId == userId
              && forall i :: 0 <= i < |lines| ==> lines[i].productId in st.products
    ensures var lines := st.OrderLinesOf(id);
            r.Err? ==> r.error == (if id !in st.orders then OrderNotFound
                                   else if st.orders[id].userId != userId then ViewForbidden
                                   else ProductNotFound)
    ensures var lines := st.OrderLinesOf(id);
            r.Ok? ==>
              && r.value.order == st.orders[id]
              && |r.value.lines| == |lines|
              && forall i :: 0 <= i < |lines| ==>
                   r.value.lines[i] == OrderLine(lines[i], st.products[lines[i].productId])
  {
    if id !in st.orders {
      return Err(OrderNotFound);
    }
    var order := st.orders[id];
    if order.userId != userId {
      return Err(ViewForbidden);
    }
    var lines := OrderLines(st.orderItems, id, st.nextOrderItemId);
    var loaded: seq<OrderLine> := [];
    var i := 0;
    while i < |lines|
      invariant 0 <= i <= |lines|
      invariant |loaded| == i
      invariant forall j :: 0 <= j < i ==> lines[j].productId in st.products
      invariant forall j :: 0 <= j < i ==> loaded[j] == OrderLine(lines[j], st.products[lines[j].productId])
    {
      if lines[i].productId !in st.products {
        assert lines == st.OrderLinesOf(id) && lines[i].productId !in st.products;
        return Err(ProductNotFound);
      }
      loaded := loaded + [OrderLine(lines[i], st.products[lines[i].productId])];
      i := i + 1;
    }
    r := Ok(OrderDetail(order, loaded));
  }

  /** `listMyOrders`: exactly the orders of `userId`. */
  function ListMyOrders(orders: map<nat, Order>, userId: nat): (r: map<nat, Order>)
    ensures forall k :: k in r <==> k in orders && orders[k].userId == userId
    ensures forall k :: k in r ==> r[k] == orders[k]
  {
    map k | k in orders && orders[k].userId == userId :: orders[k]
  }

  /** Two payments of one order: whatever the first does, the second fails
      and changes nothing, so the pair has exactly the effect of the first:
      none when it failed, one payment when it succeeded. */
  method PayTwice(st: Store, orderId: nat, userId: nat) returns (first: Result<()>, second: Result<()>)
    requires st.Valid()
    modifies st`products, st`orders, st`carts, st`nextCartId, st`cartItems
    ensures st.Valid()
    ensures second.Err?
    ensures first.Ok? ==> second == Err(NotPending)
    ensures first.Err? ==> unchanged(st)
    ensures first.Ok? ==>
              && orderId in old(st.orders)
              && EachLineInStock(OrderWants(st.OrderLinesOf(orderId)), old(st.products))
              && st.products == Decremented(old(st.products), OrderWants(st.OrderLinesOf(orderId)))
              && st.orders == old(st.orders)[orderId := old(st.orders)[orderId].(status := PAID)]
              && st.UserCartLines(userId) == []
    ensures first.Ok? ==>
              exists cart :: Carts.CartEnsured(st, userId, cart) && st.cartItems == Carts.WithoutCart(old(st.cartItems), cart.id)
  {
    first := MarkPaidAndFulfillCart(st, orderId, userId);
    second := MarkPaidAndFulfillCart(st, orderId, userId);
  }
}
