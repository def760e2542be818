/** The order/inventory arithmetic of `OrderService`, stated on values: the
    stock checks that `createPendingOrder` and `markPaidAndFulfillCart` run
    line by line, the total and the frozen order lines of a new order, and
    the stock decrement of a payment.  The methods in Orders are proved
    against these functions. */
module Checkout {
  import opened Outcomes
  import opened Tables

  function Wants(items: seq<CartItem>): (r: seq<Line>)
    ensures |r| == |items| && forall i :: 0 <= i < |items| ==> r[i] == items[i].Want()
  {
    seq(|items|, i requires 0 <= i < |items| => items[i].Want())
  }

  function OrderWants(items: seq<OrderItem>): (r: seq<Line>)
    ensures |r| == |items| && forall i :: 0 <= i < |items| ==> r[i] == items[i].Want()
  {
    seq(|items|, i requires 0 <= i < |items| => items[i].Want())
  }

  // ---------------------------------------------------------------------
  // Stock checks.

  /** The test both order operations apply to one line: the product must
      exist ("商品不存在") and hold at least `demand` units ("<name> 库存不足"). */
  function ShortOf(l: Line, demand: int, products: map<nat, Product>): (r: Option<ShopError>)
    ensures r == None <==> l.productId in products && products[l.productId].stock >= demand
    ensures r == Some(ProductNotFound) <==> l.productId !in products
    ensures l.productId in products && products[l.productId].stock < demand ==>
              r == Some(InsufficientStockFor(products[l.productId].name))
  {
    if l.productId !in products then Some(ProductNotFound)
    else if products[l.productId].stock < demand then Some(InsufficientStockFor(products[l.productId].name))
    else None
  }

  /** The source's check: the first line, from index `from` on, whose own
      quantity the stock cannot cover. */
  function FirstShortfall(lines: seq<Line>, from: nat, products: map<nat, Product>): (r: Option<ShopError>)
    ensures r.Some? ==> r.value == ProductNotFound || r.value.InsufficientStockFor?
    decreases |lines| - from
  {
    if from >= |lines| then None
    else if ShortOf(lines[from], lines[from].quantity, products).Some? then ShortOf(lines[from], lines[from].quantity, products)
    else FirstShortfall(lines, from + 1, products)
  }

  ghost predicate EachLineInStock(lines: seq<Line>, products: map<nat, Product>)
  {
    forall i :: 0 <= i < |lines| ==>
      lines[i].productId in products && products[lines[i].productId].stock >= lines[i].quantity
  }

  /** The check finds nothing exactly when every line passes on its own, and
      what it reports is the error of the first line that fails. */
  lemma {:induction false} FirstShortfallSpec(lines: seq<Line>, from: nat, products: map<nat, Product>)
    ensures FirstShortfall(lines, from, products).None? <==>
              forall i :: from <= i < |lines| ==> ShortOf(lines[i], lines[i].quantity, products).None?
    ensures FirstShortfall(lines, from, products).Some? ==>
              exists i :: from <= i < |lines|
                && FirstShortfall(lines, from, products) == ShortOf(lines[i], lines[i].quantity, products)
                && forall j :: from <= j < i ==> ShortOf(lines[j], lines[j].quantity, products).None?
    decreases |lines| - from
  {
    if from < |lines| && ShortOf(lines[from], lines[from].quantity, products).None? {
      FirstShortfallSpec(lines, from + 1, products);
      if FirstShortfall(lines, from, products).Some? {
        var i :| from + 1 <= i < |lines|
                 && FirstShortfall(lines, from + 1, products) == ShortOf(lines[i], lines[i].quantity, products)
                 && forall j :: from + 1 <= j < i ==> ShortOf(lines[j], lines[j].quantity, products).None?;
        assert forall j :: from <= j < i ==> ShortOf(lines[j], lines[j].quantity, products).None?;
      }
    }
  }

  lemma FirstShortfallNone(lines: seq<Line>, products: map<nat, Product>)
    ensures FirstShortfall(lines, 0, products).None? <==> EachLineInStock(lines, products)
  {
    FirstShortfallSpec(lines, 0, products);
  }

  /** Total units of `productId` that `lines` ask for. */
  function Demand(lines: seq<Line>, productId: nat): (d: int)
  {
    if lines == [] then 0
    else
      var rest := Demand(lines[..|lines| - 1], productId);
      if lines[|lines| - 1].productId == productId then rest + lines[|lines| - 1].quantity else rest
  }

  /** The corrected check: each line's product must cover what all the
      lines of the order together take of it, since the decrement loop
      subtracts them all from the same product. */
  function FirstAggregateShortfall(lines: seq<Line>, from: nat, products: map<nat, Product>): Option<ShopError>
    decreases |lines| - from
  {
    if from >= |lines| then None
    else
      var short := ShortOf(lines[from], Demand(lines, lines[from].productId), products);
      if short.Some? then short else FirstAggregateShortfall(lines, from + 1, products)
  }

  ghost predicate AggregateInStock(lines: seq<Line>, products: map<nat, Product>)
  {
    forall i :: 0 <= i < |lines| ==>
      lines[i].productId in products && products[lines[i].productId].stock >= Demand(lines, lines[i].productId)
  }

  lemma {:induction false} FirstAggregateShortfallSpec(lines: seq<Line>, from: nat, products: map<nat, Product>)
    ensures FirstAggregateShortfall(lines, from, products).None? <==>
              forall i :: from <= i < |lines| ==> ShortOf(lines[i], Demand(lines, lines[i].productId), products).None?
    decreases |lines| - from
  {
    if from < |lines| && ShortOf(lines[from], Demand(lines, lines[from].productId), products).None? {
      FirstAggregateShortfallSpec(lines, from + 1, products);
    }
  }

  lemma FirstAggregateShortfallNone(lines: seq<Line>, products: map<nat, Product>)
    ensures FirstAggregateShortfall(lines, 0, products).None? <==> AggregateInStock(lines, products)
  {
    FirstAggregateShortfallSpec(lines, 0, products);
  }

  // ---------------------------------------------------------------------
  // Demand.

  lemma {:induction false} DemandOfAbsent(lines: seq<Line>, productId: nat)
    requires forall i :: 0 <= i < |lines| ==> lines[i].productId != productId
    ensures Demand(lines, productId) == 0
  {
    if lines != [] {
      DemandOfAbsent(lines[..|lines| - 1], productId);
    }
  }

  /** With positive quantities, the total demand for a product is at least
      what any single line for it asks. */
  lemma {:induction false} DemandCoversLine(lines: seq<Line>, i: nat)
    requires i < |lines|
    requires forall j :: 0 <= j < |lines| ==> lines[j].quantity > 0
    ensures Demand(lines, lines[i].productId) >= lines[i].quantity
  {
    var init := lines[..|lines| - 1];
    if i < |lines| - 1 {
      DemandCoversLine(init, i);
      DemandNonNegative(init, lines[i].productId);
      assert init[i] == lines[i];
    } else {
      DemandNonNegative(init, lines[i].productId);
    }
  }

  lemma {:induction false} DemandNonNegative(lines: seq<Line>, productId: nat)
    requires forall j :: 0 <= j < |lines| ==> lines[j].quantity > 0
    ensures Demand(lines, productId) >= 0
  {
    if lines != [] {
      DemandNonNegative(lines[..|lines| - 1], productId);
    }
  }

  /** When no two lines name the same product, a product's demand is the
      quantity of its one line. */
  lemma {:induction false} DemandOfDistinct(lines: seq<Line>, i: nat)
    requires i < |lines|
    requires DistinctProducts(lines)
    ensures Demand(lines, lines[i].productId) == lines[i].quantity
  {
    var init := lines[..|lines| - 1];
    if i < |lines| - 1 {
      assert init[i] == lines[i];
      DemandOfDistinct(init, i);
    } else {
      DemandOfAbsent(init, lines[i].productId);
    }
  }

  ghost predicate DistinctProducts(lines: seq<Line>)
  {
    forall i, j :: 0 <= i < j < |lines| ==> lines[i].productId != lines[j].productId
  }

  // ---------------------------------------------------------------------
  // Payment's stock decrement.

  /** The products after the decrement loop: each line, in order, takes its
      quantity off its product's CURRENT stock, so the decrements add up. */
  function Decremented(products: map<nat, Product>, lines: seq<Line>): (r: map<nat, Product>)
    requires forall i :: 0 <= i < |lines| ==> lines[i].productId in products
    ensures r.Keys == products.Keys
  {
    if lines == [] then products
    else
      var l := lines[|lines| - 1];
      var p := Decremented(products, lines[..|lines| - 1]);
      p[l.productId := p[l.productId].(stock := p[l.productId].stock - l.quantity)]
  }

  /** Every product ends up with its stock less the total demand for it;
      nothing else of it changes. */
  lemma {:induction false} DecrementedSpec(products: map<nat, Product>, lines: seq<Line>)
    requires forall i :: 0 <= i < |lines| ==> lines[i].productId in products
    ensures forall k :: k in products ==>
              Decremented(products, lines)[k] == products[k].(stock := products[k].stock - Demand(lines, k))
  {
    if lines != [] {
      DecrementedSpec(products, lines[..|lines| - 1]);
    }
  }

  /** One more line of the decrement loop. */
  lemma DecrementedStep(products: map<nat, Product>, lines: seq<Line>, i: nat)
    requires i < |lines|
    requires forall j :: 0 <= j < |lines| ==> lines[j].productId in products
    ensures var p := Decremented(products, lines[..i]);
            Decremented(products, lines[..i + 1])
              == p[lines[i].productId := p[lines[i].productId].(stock := p[lines[i].productId].stock - lines[i].quantity)]
  {
    assert lines[..i + 1][..i] == lines[..i];
  }

  /** What the per-line check admits, the decrement turns negative: two
      lines of 2 units against a stock of 3 both pass, and leave -1. */
  lemma PerLineCheckAdmitsNegativeStock()
    ensures var products := map[1 := Product(1, "p", 100, 3, None)];
            var lines := [Line(1, 2), Line(1, 2)];
            && FirstShortfall(lines, 0, products) == None
            && StockNonNegative(products)
            && Decremented(products, lines)[1].stock == -1
  {
    var products := map[1 := Product(1, "p", 100, 3, None)];
    var lines := [Line(1, 2), Line(1, 2)];
    assert lines[..1] == [Line(1, 2)];
    assert Demand(lines, 1) == 4;
    DecrementedSpec(products, lines);
  }

  /** The corrected check keeps every stock non-negative. */
  lemma AggregateCheckKeepsStock(products: map<nat, Product>, lines: seq<Line>)
    requires StockNonNegative(products)
    requires AggregateInStock(lines, products)
    ensures forall i :: 0 <= i < |lines| ==> lines[i].productId in products
    ensures StockNonNegative(Decremented(products, lines))
  {
    var r := Decremented(products, lines);
    DecrementedSpec(products, lines);
    forall k | k in r
      ensures r[k].stock >= 0
    {
      if exists i :: 0 <= i < |lines| && lines[i].productId == k {
      } else {
        DemandOfAbsent(lines, k);
      }
    }
  }

  /** The corrected check never admits an order the source's check rejects. */
  lemma AggregateCheckIsStricter(products: map<nat, Product>, lines: seq<Line>)
    requires forall j :: 0 <= j < |lines| ==> lines[j].quantity > 0
    requires AggregateInStock(lines, products)
    ensures EachLineInStock(lines, products)
  {
    forall i | 0 <= i < |lines|
      ensures products[lines[i].productId].stock >= lines[i].quantity
    {
      DemandCoversLine(lines, i);
    }
  }

  /** Without duplicate products the two checks agree, so the source's
      payment keeps stock non-negative on such orders. */
  lemma DistinctLinesChecksAgree(products: map<nat, Product>, lines: seq<Line>)
    requires DistinctProducts(lines)
    ensures EachLineInStock(lines, products) <==> AggregateInStock(lines, products)
  {
    forall i | 0 <= i < |lines|
      ensures Demand(lines, lines[i].productId) == lines[i].quantity
    {
      DemandOfDistinct(lines, i);
    }
  }

  // ---------------------------------------------------------------------
  // A new order.

  /** Σ product.price × item.quantity over the cart lines, at the prices the
      catalog has now. */
  function CartTotal(lines: seq<CartItem>, products: map<nat, Product>): int
    requires forall i :: 0 <= i < |lines| ==> lines[i].productId in products
  {
    if lines == [] then 0
    else
      var l := lines[|lines| - 1];
      CartTotal(lines[..|lines| - 1], products) + products[l.productId].price * l.quantity
  }

  /** Σ orderItem.price × orderItem.quantity. */
  function ItemsTotal(items: seq<OrderItem>): int
  {
    if items == [] then 0
    else ItemsTotal(items[..|items| - 1]) + items[|items| - 1].price * items[|items| - 1].quantity
  }

  /** The order lines `createPendingOrder` writes: one per cart line, in
      cart order, with consecutive ids from `firstId`, copying product and
      quantity and freezing the product's current price. */
  function Snapshot(orderId: nat, firstId: nat, lines: seq<CartItem>, products: map<nat, Product>): (r: seq<OrderItem>)
    requires forall i :: 0 <= i < |lines| ==> lines[i].productId in products
    ensures |r| == |lines|
    ensures forall i :: 0 <= i < |lines| ==>
              r[i] == OrderItem(firstId + i, orderId, lines[i].productId, lines[i].quantity, products[lines[i].productId].price)
  {
    seq(|lines|, i requires 0 <= i < |lines| =>
      OrderItem(firstId + i, orderId, lines[i].productId, lines[i].quantity, products[lines[i].productId].price))
  }

  /** The frozen lines add up to the order's total, and ask for exactly what
      the cart asked for. */
  lemma {:induction false} SnapshotTotal(orderId: nat, firstId: nat, lines: seq<CartItem>, products: map<nat, Product>)
    requires forall i :: 0 <= i < |lines| ==> lines[i].productId in products
    ensures ItemsTotal(Snapshot(orderId, firstId, lines, products)) == CartTotal(lines, products)
    ensures OrderWants(Snapshot(orderId, firstId, lines, products)) == Wants(lines)
  {
    var s := Snapshot(orderId, firstId, lines, products);
    if lines != [] {
      var init := lines[..|lines| - 1];
      SnapshotTotal(orderId, firstId, init, products);
      assert s[..|s| - 1] == Snapshot(orderId, firstId, init, products);
    }
  }

  /** `items` with `more` saved one after the other. */
  function SaveAll(items: map<nat, OrderItem>, more: seq<OrderItem>): map<nat, OrderItem>
  {
    if more == [] then items
    else SaveAll(items, more[..|more| - 1])[more[|more| - 1].id := more[|more| - 1]]
  }

  lemma {:induction false} SaveAllKeys(items: map<nat, OrderItem>, firstId: nat, more: seq<OrderItem>)
    requires forall i :: 0 <= i < |more| ==> more[i].id == firstId + i
    ensures forall k :: k in SaveAll(items, more) <==> k in items || firstId <= k < firstId + |more|
    ensures forall k :: k in items && !(firstId <= k < firstId + |more|) ==> SaveAll(items, more)[k] == items[k]
  {
    if more != [] {
      SaveAllKeys(items, firstId, more[..|more| - 1]);
    }
  }

  /** Saving lines with fresh ascending ids above every old key: `findByOrderId`
      of the new order then returns exactly those lines, in order. */
  lemma {:induction false} SavedLinesFound(items: map<nat, OrderItem>, orderId: nat, firstId: nat,
                                           more: seq<OrderItem>)
    requires forall k :: k in items ==> k < firstId && items[k].orderId != orderId
    requires forall i :: 0 <= i < |more| ==> more[i].id == firstId + i && more[i].orderId == orderId
    ensures OrderLines(SaveAll(items, more), orderId, firstId + |more|) == more
  {
    if more == [] {
      OrderLinesNoneOf(items, orderId, firstId);
    } else {
      var init := more[..|more| - 1];
      var last := more[|more| - 1];
      var n := firstId + |init|;
      var m := SaveAll(items, init);
      SavedLinesFound(items, orderId, firstId, init);
      assert SaveAll(items, more) == m[n := last];
      OrderLinesAgreeBelow(m, m[n := last], orderId, n);
      assert more == init + [last];
    }
  }

  /** A new order's lines, saved under fresh ids above every old key, are
      found again by `findByOrderId`, in cart order, and add up to the cart
      total. */
  lemma SnapshotSaved(items: map<nat, OrderItem>, orderId: nat, firstId: nat,
                      lines: seq<CartItem>, products: map<nat, Product>)
    requires forall k :: k in items ==> k < firstId && items[k].orderId != orderId
    requires forall i :: 0 <= i < |lines| ==> lines[i].productId in products
    ensures var s := Snapshot(orderId, firstId, lines, products);
            && OrderLines(SaveAll(items, s), orderId, firstId + |lines|) == s
            && ItemsTotal(s) == CartTotal(lines, products)
            && OrderWants(s) == Wants(lines)
  {
    SavedLinesFound(items, orderId, firstId, Snapshot(orderId, firstId, lines, products));
    SnapshotTotal(orderId, firstId, lines, products);
  }

  lemma {:induction false} OrderLinesNoneOf(items: map<nat, OrderItem>, orderId: nat, n: nat)
    requires forall k :: k in items ==> items[k].orderId != orderId
    ensures OrderLines(items, orderId, n) == []
  {
    if n > 0 {
      OrderLinesNoneOf(items, orderId, n - 1);
    }
  }

  lemma {:induction false} OrderLinesAgreeBelow(a: map<nat, OrderItem>, b: map<nat, OrderItem>, orderId: nat, n: nat)
    requires forall k :: k < n ==> (k in a <==> k in b) && (k in a ==> a[k] == b[k])
    ensures OrderLines(a, orderId, n) == OrderLines(b, orderId, n)
  {
    if n > 0 {
      OrderLinesAgreeBelow(a, b, orderId, n - 1);
    }
  }
}
