/** The shop's persistent state.  The Spring Data repositories of the
    backend become six in-memory tables keyed by id, each with its own
    identity counter, held by one `Store` object that the services update in
    place.  The finders the services call (`findByUserId`, `findByCartId`,
    `findByOrderId`, `findByUsername`) are the scan functions at the end. */
module Tables {
  import opened Outcomes

  /** Prices are whole cents. */
  datatype Product = Product(id: nat, name: string, price: int, stock: int, imgUrl: Option<string>)
  datatype Cart = Cart(id: nat, userId: nat)
  datatype CartItem = CartItem(id: nat, cartId: nat, productId: nat, quantity: int)
  {
    function Want(): Line { Line(productId, quantity) }
  }
  datatype Order = Order(id: nat, userId: nat, status: string, totalPrice: int)
  datatype OrderItem = OrderItem(id: nat, orderId: nat, productId: nat, quantity: int, price: int)
  {
    function Want(): Line { Line(productId, quantity) }
  }
  /** `password` holds the hash, never the raw password. */
  datatype User = User(id: nat, username: string, password: string)

  /** What a cart line or an order line asks of the stock. */
  datatype Line = Line(productId: nat, quantity: int)

  const PENDING := "PENDING"
  const PAID := "PAID"

  // ---------------------------------------------------------------------
  // Table invariants.  Each row is stored under its own id, every id is
  // below the table's counter, child rows point at existing parents, line
  // quantities are positive, a user has at most one cart and usernames are
  // unique.

  ghost predicate ProductTable(m: map<nat, Product>, next: nat)
  {
    forall k :: k in m ==> m[k].id == k && k < next
  }

  ghost predicate CartTable(m: map<nat, Cart>, next: nat)
  {
    && (forall k :: k in m ==> m[k].id == k && k < next)
    && (forall a, b :: a in m && b in m && m[a].userId == m[b].userId ==> a == b)
  }

  ghost predicate CartItemTable(m: map<nat, CartItem>, next: nat, carts: map<nat, Cart>)
  {
    forall k :: k in m ==> m[k].id == k && k < next && m[k].cartId in carts && m[k].quantity > 0
  }

  ghost predicate OrderTable(m: map<nat, Order>, next: nat)
  {
    forall k :: k in m ==> m[k].id == k && k < next
  }

  ghost predicate OrderItemTable(m: map<nat, OrderItem>, next: nat, orders: map<nat, Order>)
  {
    forall k :: k in m ==> m[k].id == k && k < next && m[k].orderId in orders && m[k].quantity > 0
  }

  ghost predicate UserTable(m: map<nat, User>, next: nat)
  {
    && (forall k :: k in m ==> m[k].id == k && k < next)
    && (forall a, b :: a in m && b in m && m[a].username == m[b].username ==> a == b)
  }

  /** Stock is meant never to go below zero: both order operations refuse a
      line whose quantity exceeds the stock (OrderService.java:61, 120).  The
      payment as written still breaks it for repeated products (see
      Checkout.PerLineCheckAdmitsNegativeStock). */
  ghost predicate StockNonNegative(products: map<nat, Product>)
  {
    forall k :: k in products ==> products[k].stock >= 0
  }

  class Store {
    var products: map<nat, Product>
    var carts: map<nat, Cart>
    var cartItems: map<nat, CartItem>
    var orders: map<nat, Order>
    var orderItems: map<nat, OrderItem>
    var users: map<nat, User>
    var nextProductId: nat
    var nextCartId: nat
    var nextCartItemId: nat
    var nextOrderId: nat
    var nextOrderItemId: nat
    var nextUserId: nat

    ghost predicate Valid()
      reads this
    {
      && ProductTable(products, nextProductId)
      && CartTable(carts, nextCartId)
      && CartItemTable(cartItems, nextCartItemId, carts)
      && OrderTable(orders, nextOrderId)
      && OrderItemTable(orderItems, nextOrderItemId, orders)
      && UserTable(users, nextUserId)
    }

    constructor ()
      ensures Valid()
      ensures products == map[] && carts == map[] && cartItems == map[]
      ensures orders == map[] && orderItems == map[] && users == map[]
    {
      products, carts, cartItems := map[], map[], map[];
      orders, orderItems, users := map[], map[], map[];
      nextProductId, nextCartId, nextCartItemId := 0, 0, 0;
      nextOrderId, nextOrderItemId, nextUserId := 0, 0, 0;
    }

    /** The lines of `userId`'s cart, as `findByCartId` returns them; empty
        when the user has no cart yet. */
    function UserCartLines(userId: nat): seq<CartItem>
      reads this
    {
      match FindCart(carts, userId, nextCartId)
      case None => []
      case Some(c) => CartLines(cartItems, c.id, nextCartItemId)
    }

    /** The lines of order `orderId`, as `findByOrderId` returns them. */
    function OrderLinesOf(orderId: nat): seq<OrderItem>
      reads this
    {
      OrderLines(orderItems, orderId, nextOrderItemId)
    }
  }

  /** `findById(...)` of any table, `Optional` as `Option`. */
  function Lookup<T>(m: map<nat, T>, id: nat): (r: Option<T>)
    ensures r.Some? <==> id in m
    ensures r.Some? ==> r.value == m[id]
  {
    if id in m then Some(m[id]) else None
  }

  // ---------------------------------------------------------------------
  // Finders.  Each scans the ids below a bound, newest first for the single
  // results and in ascending id order for the lists.

  /** `cartRepository.findByUserId`. */
  function FindCart(carts: map<nat, Cart>, userId: nat, n: nat): (r: Option<Cart>)
    ensures r.Some? ==> r.value.userId == userId && r.value in carts.Values
  {
    if n == 0 then None
    else if n - 1 in carts && carts[n - 1].userId == userId then Some(carts[n - 1])
    else FindCart(carts, userId, n - 1)
  }

  /** `userRepository.findByUsername`. */
  function FindUser(users: map<nat, User>, username: string, n: nat): (r: Option<User>)
    ensures r.Some? ==> r.value.username == username && r.value in users.Values
  {
    if n == 0 then None
    else if n - 1 in users && users[n - 1].username == username then Some(users[n - 1])
    else FindUser(users, username, n - 1)
  }

  /** `cartItemRepository.findByCartId`. */
  function CartLines(items: map<nat, CartItem>, cartId: nat, n: nat): seq<CartItem>
  {
    if n == 0 then []
    else
      var rest := CartLines(items, cartId, n - 1);
      if n - 1 in items && items[n - 1].cartId == cartId then rest + [items[n - 1]] else rest
  }

  /** `orderItemRepository.findByOrderId`. */
  function OrderLines(items: map<nat, OrderItem>, orderId: nat, n: nat): seq<OrderItem>
  {
    if n == 0 then []
    else
      var rest := OrderLines(items, orderId, n - 1);
      if n - 1 in items && items[n - 1].orderId == orderId then rest + [items[n - 1]] else rest
  }

  // ---------------------------------------------------------------------
  // What the finders return.

  lemma {:induction false} FindCartSpec(carts: map<nat, Cart>, userId: nat, n: nat)
    requires CartTable(carts, n)
    ensures FindCart(carts, userId, n).None? <==>
              forall k :: k in carts ==> carts[k].userId != userId
    ensures FindCart(carts, userId, n).Some? ==>
              var c := FindCart(carts, userId, n).value;
              c.id in carts && carts[c.id] == c &&
              forall k :: k in carts && carts[k].userId == userId ==> k == c.id
  {
    if n > 0 && !(n - 1 in carts && carts[n - 1].userId == userId) {
      var rest := carts - {n - 1};
      FindCartSpec(rest, userId, n - 1);
      FindCartIgnoresAbove(carts, rest, userId, n - 1);
      assert forall k :: k in carts && k != n - 1 ==> k in rest;
    }
  }

  lemma {:induction false} FindCartIgnoresAbove(a: map<nat, Cart>, b: map<nat, Cart>, userId: nat, n: nat)
    requires forall k :: k < n ==> (k in a <==> k in b) && (k in a ==> a[k] == b[k])
    ensures FindCart(a, userId, n) == FindCart(b, userId, n)
  {
    if n > 0 {
      FindCartIgnoresAbove(a, b, userId, n - 1);
    }
  }

  lemma {:induction false} FindUserSpec(users: map<nat, User>, username: string, n: nat)
    requires UserTable(users, n)
    ensures FindUser(users, username, n).None? <==>
              forall k :: k in users ==> users[k].username != username
    ensures FindUser(users, username, n).Some? ==>
              var u := FindUser(users, username, n).value;
              u.id in users && users[u.id] == u
  {
    if n > 0 && !(n - 1 in users && users[n - 1].username == username) {
      var rest := users - {n - 1};
      FindUserSpec(rest, username, n - 1);
      FindUserIgnoresAbove(users, rest, username, n - 1);
      assert forall k :: k in users && k != n - 1 ==> k in rest;
    }
  }

  lemma {:induction false} FindUserIgnoresAbove(a: map<nat, User>, b: map<nat, User>, username: string, n: nat)
    requires forall k :: k < n ==> (k in a <==> k in b) && (k in a ==> a[k] == b[k])
    ensures FindUser(a, username, n) == FindUser(b, username, n)
  {
    if n > 0 {
      FindUserIgnoresAbove(a, b, username, n - 1);
    }
  }

  /** `findByCartId` returns exactly the items of that cart, each once, in
      ascending id order. */
  lemma {:induction false} CartLinesSpec(items: map<nat, CartItem>, cartId: nat, n: nat)
    requires forall k :: k in items ==> items[k].id == k
    ensures forall i :: 0 <= i < |CartLines(items, cartId, n)| ==>
              var it := CartLines(items, cartId, n)[i];
              it.id < n && it.id in items && items[it.id] == it && it.cartId == cartId
    ensures forall k :: k < n && k in items && items[k].cartId == cartId ==> items[k] in CartLines(items, cartId, n)
    ensures forall i, j :: 0 <= i < j < |CartLines(items, cartId, n)| ==>
              CartLines(items, cartId, n)[i].id < CartLines(items, cartId, n)[j].id
  {
    if n > 0 {
      CartLinesSpec(items, cartId, n - 1);
    }
  }

  /** The same for `findByOrderId`. */
  lemma {:induction false} OrderLinesSpec(items: map<nat, OrderItem>, orderId: nat, n: nat)
    requires forall k :: k in items ==> items[k].id == k
    ensures forall i :: 0 <= i < |OrderLines(items, orderId, n)| ==>
              var it := OrderLines(items, orderId, n)[i];
              it.id < n && it.id in items && items[it.id] == it && it.orderId == orderId
    ensures forall k :: k < n && k in items && items[k].orderId == orderId ==> items[k] in OrderLines(items, orderId, n)
    ensures forall i, j :: 0 <= i < j < |OrderLines(items, orderId, n)| ==>
              OrderLines(items, orderId, n)[i].id < OrderLines(items, orderId, n)[j].id
  {
    if n > 0 {
      OrderLinesSpec(items, orderId, n - 1);
    }
  }

  /** Every line of a user's cart is a stored item with a positive quantity. */
  lemma UserCartLinesStored(st: Store, userId: nat)
    requires st.Valid()
    ensures forall i :: 0 <= i < |st.UserCartLines(userId)| ==>
              var it := st.UserCartLines(userId)[i];
              it.id in st.cartItems && st.cartItems[it.id] == it && it.quantity > 0
  {
    match FindCart(st.carts, userId, st.nextCartId)
    case None =>
    case Some(c) => CartLinesSpec(st.cartItems, c.id, st.nextCartItemId);
  }

  /** Lines of a cart that has no items are empty. */
  lemma {:induction false} CartLinesNone(items: map<nat, CartItem>, cartId: nat, n: nat)
    requires forall k :: k in items ==> items[k].cartId != cartId
    ensures CartLines(items, cartId, n) == []
  {
    if n > 0 {
      CartLinesNone(items, cartId, n - 1);
    }
  }
}
