/** `CartService`: a lazily created cart per user and the CRUD of its lines.
    A line is never merged with another line for the same product, and no
    cart operation touches the stock: every method below leaves
    `st.products` (and the order and user tables) out of its frame. */
module Carts {
  import opened Outcomes
  import opened Tables

  /** A cart line with its product attached, `null` when the product is gone. */
  datatype LoadedItem = LoadedItem(item: CartItem, product: Option<Product>)

  /** What `getOrCreateCart` leaves behind: `cart` is the user's one cart,
      either the one that existed (nothing written) or a new one stored
      under the next cart id. */
  twostate predicate CartEnsured(st: Store, userId: nat, cart: Cart)
    reads st`carts, st`nextCartId
  {
    && cart.userId == userId
    && FindCart(st.carts, userId, st.nextCartId) == Some(cart)
    && cart.id in st.carts && st.carts[cart.id] == cart
    && (old(FindCart(st.carts, userId, st.nextCartId)).Some? ==>
          && old(FindCart(st.carts, userId, st.nextCartId)) == Some(cart)
          && st.carts == old(st.carts) && st.nextCartId == old(st.nextCartId))
    && (old(FindCart(st.carts, userId, st.nextCartId)).None? ==>
          && cart.id == old(st.nextCartId) && cart.id !in old(st.carts)
          && st.carts == old(st.carts)[cart.id := cart]
          && st.nextCartId == old(st.nextCartId) + 1)
  }

  method GetOrCreateCart(st: Store, userId: nat) returns (cart: Cart)
    requires st.Valid()
    modifies st`carts, st`nextCartId
    ensures st.Valid()
    ensures CartEnsured(st, userId, cart)
  {
    FindCartSpec(st.carts, userId, st.nextCartId);
    var found := FindCart(st.carts, userId, st.nextCartId);
    if found.Some? {
      cart := found.value;
    } else {
      cart := Cart(st.nextCartId, userId);
      st.carts := st.carts[cart.id := cart];
      st.nextCartId := st.nextCartId + 1;
    }
  }

  /** Two `getOrCreateCart` calls in a row return the same cart, and the
      pair writes no more than the first call alone: at most one new cart. */
  method GetOrCreateCartTwice(st: Store, userId: nat) returns (first: Cart, second: Cart)
    requires st.Valid()
    modifies st`carts, st`nextCartId
    ensures st.Valid()
    ensures first == second
    ensures CartEnsured(st, userId, first)
  {
    first := GetOrCreateCart(st, userId);
    second := GetOrCreateCart(st, userId);
  }

  /** `getActiveCartItems`: the lines of the user's cart (created if absent),
      in `findByCartId` order, each with its product looked up. */
  method GetActiveCartItems(st: Store, userId: nat) returns (items: seq<LoadedItem>, ghost cart: Cart)
    requires st.Valid()
    modifies st`carts, st`nextCartId
    ensures st.Valid()
    ensures CartEnsured(st, userId, cart)
    ensures var lines := st.UserCartLines(userId);
            && |items| == |lines|
            && forall i :: 0 <= i < |lines| ==>
                 items[i] == LoadedItem(lines[i], Lookup(st.products, lines[i].productId))
  {
    var c := GetOrCreateCart(st, userId);
    cart := c;
    var lines := CartLines(st.cartItems, c.id, st.nextCartItemId);
    items := [];
    var i := 0;
    while i < |lines|
      invariant 0 <= i <= |lines|
      invariant |items| == i
      invariant forall j :: 0 <= j < i ==> items[j] == LoadedItem(lines[j], Lookup(st.products, lines[j].productId))
    {
      var product := if lines[i].productId in st.products then Some(st.products[lines[i].productId]) else None;
      items := items + [LoadedItem(lines[i], product)];
      i := i + 1;
    }
  }

  /** `addItem`: all three checks come before any write, even the cart's
      creation; on success exactly one new line is stored. */
  method AddItem(st: Store, userId: nat, productId: nat, quantity: int) returns (r: Result<CartItem>)
    requires st.Valid()
    modifies st`carts, st`nextCartId, st`cartItems, st`nextCartItemId
    ensures st.Valid()
    ensures r.Ok? <==> quantity > 0 && productId in st.products && st.products[productId].stock >= quantity
    ensures r.Err? ==>
              && r.error == (if quantity <= 0 then InvalidQuantity
                             else if productId !in st.products then ProductNotFound
                             else InsufficientStock)
              && unchanged(st)
    ensures r.Ok? ==>
              && CartEnsured(st, userId, Cart(r.value.cartId, userId))
              && r.value == CartItem(old(st.nextCartItemId), r.value.cartId, productId, quantity)
              && r.value.id !in old(st.cartItems)
              && st.cartItems == old(st.cartItems)[r.value.id := r.value]
              && |st.cartItems| == |old(st.cartItems)| + 1
              && st.nextCartItemId == old(st.nextCartItemId) + 1
  {
    if quantity <= 0 {
      return Err(InvalidQuantity);
    }
    if productId !in st.products {
      return Err(ProductNotFound);
    }
    if st.products[productId].stock < quantity {
      return Err(InsufficientStock);
    }
    var cart := GetOrCreateCart(st, userId);
    var item := SaveNewItem(st, cart.id, productId, quantity);
    r := Ok(item);
  }

  /** The insert of `addItem`: a brand-new line under the next item id. */
  method SaveNewItem(st: Store, cartId: nat, productId: nat, quantity: int) returns (item: CartItem)
    requires st.Valid()
    requires cartId in st.carts && quantity > 0
    modifies st`cartItems, st`nextCartItemId
    ensures st.Valid()
    ensures item == CartItem(old(st.nextCartItemId), cartId, productId, quantity)
    ensures item.id !in old(st.cartItems)
    ensures st.cartItems == old(st.cartItems)[item.id := item]
    ensures |st.cartItems| == |old(st.cartItems)| + 1
    ensures st.nextCartItemId == old(st.nextCartItemId) + 1
  {
    item := CartItem(st.nextCartItemId, cartId, productId, quantity);
    st.cartItems := st.cartItems[item.id := item];
    st.nextCartItemId := st.nextCartItemId + 1;
  }

  /** `updateItemQuantity`: the same checks as `addItem` with the item's
      existence checked second; on success only that line's quantity
      changes. */
  method UpdateItemQuantity(st: Store, itemId: nat, quantity: int) returns (r: Result<()>)
    requires st.Valid()
    modifies st`cartItems
    ensures st.Valid()
    ensures r.Ok? <==>
              && quantity > 0 && itemId in old(st.cartItems)
              && old(st.cartItems)[itemId].productId in st.products
              && st.products[old(st.cartItems)[itemId].productId].stock >= quantity
    ensures r.Err? ==>
              && r.error == (if quantity <= 0 then InvalidQuantity
                             else if itemId !in old(st.cartItems) then CartItemNotFound
                             else if old(st.cartItems)[itemId].productId !in st.products then ProductNotFound
                             else InsufficientStock)
              && st.cartItems == old(st.cartItems)
    ensures r.Ok? ==> st.cartItems == old(st.cartItems)[itemId := old(st.cartItems)[itemId].(quantity := quantity)]
  {
    if quantity <= 0 {
      return Err(InvalidQuantity);
    }
    if itemId !in st.cartItems {
      return Err(CartItemNotFound);
    }
    var item := st.cartItems[itemId];
    if item.productId !in st.products {
      return Err(ProductNotFound);
    }
    if st.products[item.productId].stock < quantity {
      return Err(InsufficientStock);
    }
    st.cartItems := st.cartItems[itemId := item.(quantity := quantity)];
    r := Ok(());
  }

  /** `removeItem`: deletes exactly that line, or fails when it is absent. */
  method RemoveItem(st: Store, itemId: nat) returns (r: Result<()>)
    requires st.Valid()
    modifies st`cartItems
    ensures st.Valid()
    ensures r == (if itemId in old(st.cartItems) then Ok(()) else Err(CartItemNotFound))
    ensures st.cartItems == old(st.cartItems) - {itemId}
  {
    if itemId !in st.cartItems {
      return Err(CartItemNotFound);
    }
    st.cartItems := st.cartItems - {itemId};
    r := Ok(());
  }

  /** The items of every cart but `cartId`. */
  function WithoutCart(items: map<nat, CartItem>, cartId: nat): (r: map<nat, CartItem>)
    ensures forall k :: k in r <==> k in items && items[k].cartId != cartId
    ensures forall k :: k in r ==> r[k] == items[k]
  {
    map k | k in items && items[k].cartId != cartId :: items[k]
  }

  /** `clearCart`: deletes every line of the user's cart (creating the cart
      if absent) and no line of any other cart. */
  method ClearCart(st: Store, userId: nat) returns (ghost cart: Cart)
    requires st.Valid()
    modifies st`carts, st`nextCartId, st`cartItems
    ensures st.Valid()
    ensures CartEnsured(st, userId, cart)
    ensures st.cartItems == WithoutCart(old(st.cartItems), cart.id)
    ensures st.UserCartLines(userId) == []
  {
    var c := GetOrCreateCart(st, userId);
    cart := c;
    st.cartItems := WithoutCart(st.cartItems, c.id);
    CartLinesNone(st.cartItems, cart.id, st.nextCartItemId);
  }
}
