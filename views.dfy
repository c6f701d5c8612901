/**
 * The API's request handlers that change or select rows: deleting a product
 * or a collection, the current user's customer record, placing an order, and
 * the orders a user may see. Each handler runs against one `Store`; HTTP
 * status codes become the `Error` of a `Result`.
 */
module Views {
  import opened Wrappers
  import opened Models
  import opened Serializers
  import opened Database

  /**
   * Deleting a product: 404 when it does not exist, refused while an order
   * item references it, otherwise the product is deleted with its cascades.
   */
  method DestroyProduct(s: Store, pid: ProductId) returns (r: Result<ProductId>)
    requires s.Valid()
    modifies s
    ensures s.Valid()
    ensures r == Err(NotFound) <==> pid !in old(s.products)
    ensures r == Err(ProductInUse) <==> pid in old(s.products) && exists x :: x in old(s.orderItems) && x.product == pid
    ensures r.Ok? || r == Err(NotFound) || r == Err(ProductInUse)
    ensures r.Err? ==> unchanged(s)
    ensures r.Ok? ==> r.value == pid && s.products == old(s.products) - {pid}
    ensures r.Ok? ==> s.collections == ClearFeatured(old(s.collections), pid)
    ensures r.Ok? ==> s.cartItems == WithoutProduct(old(s.cartItems), pid)
    ensures unchanged(s`carts, s`customers, s`orders, s`orderItems)
    ensures unchanged(s`nextCartItemId, s`nextCustomerId, s`nextOrderId, s`nextOrderItemId)
  {
    if pid !in s.products {
      return Err(NotFound);
    }
    if OrderItemCount(s.orderItems, pid) > 0 {
      return Err(ProductInUse);
    }
    r := s.DeleteProduct(pid);
  }

  /** The DELETE branch of the collection detail view: refused while the collection has products. */
  method DestroyCollection(s: Store, cid: CollectionId) returns (r: Result<CollectionId>)
    requires s.Valid()
    modifies s
    ensures s.Valid()
    ensures r == Err(NotFound) <==> cid !in old(s.collections)
    ensures r == Err(CollectionInUse) <==>
              cid in old(s.collections) && exists p :: p in old(s.products) && old(s.products)[p].collection == cid
    ensures r.Ok? || r == Err(NotFound) || r == Err(CollectionInUse)
    ensures r.Err? ==> unchanged(s)
    ensures r.Ok? ==> r.value == cid && s.collections == old(s.collections) - {cid}
    ensures unchanged(s`products, s`carts, s`cartItems, s`customers, s`orders, s`orderItems)
    ensures unchanged(s`nextCartItemId, s`nextCustomerId, s`nextOrderId, s`nextOrderItemId)
  {
    if cid !in s.collections {
      return Err(NotFound);
    }
    if ProductCount(s.products, cid) > 0 {
      return Err(CollectionInUse);
    }
    r := s.DeleteCollection(cid);
  }

  /** The `me` action: the current user's customer, created on first use. */
  method Me(s: Store, user: UserId) returns (customer: CustomerId)
    requires s.Valid()
    modifies s
    ensures s.Valid()
    ensures CustomerOf(s.customers, user) == Some(customer) && s.customers[customer].user == user
    ensures CustomerOf(old(s.customers), user).Some? ==> customer == CustomerOf(old(s.customers), user).value && unchanged(s)
    ensures CustomerOf(old(s.customers), user).None? ==>
              customer !in old(s.customers) && s.customers == old(s.customers)[customer := Customer(user)]
    ensures CustomerOf(old(s.customers), user).None? ==>
              customer == old(s.nextCustomerId) && s.nextCustomerId == old(s.nextCustomerId) + 1
    ensures unchanged(s`products, s`collections, s`carts, s`cartItems, s`orders, s`orderItems)
    ensures unchanged(s`nextCartItemId, s`nextOrderId, s`nextOrderItemId)
  {
    var created;
    customer, created := s.GetOrCreateCustomer(user);
  }

  /** Asking for one's customer twice gives the same customer, and at most one row is ever added. */
  method MeTwice(s: Store, user: UserId) returns (first: CustomerId, second: CustomerId)
    requires s.Valid()
    modifies s
    ensures s.Valid()
    ensures first == second
    ensures s.customers.Keys <= old(s.customers).Keys + {first}
  {
    first := Me(s, user);
    second := Me(s, user);
  }

  /**
   * Creating an order: the cart id is validated first (unknown cart, empty
   * cart); a valid cart is turned into an order of the user's customer.
   */
  method CreateOrder(s: Store, cart: CartId, user: UserId) returns (r: Result<OrderId>)
    requires s.Valid()
    modifies s
    ensures s.Valid()
    ensures r == Err(NoSuchCart) <==> cart !in old(s.carts)
    ensures r == Err(EmptyCart) <==> cart in old(s.carts) && forall x :: x in old(s.cartItems) ==> x.cart != cart
    ensures r == Err(NoSuchCustomer) <==>
              ValidateCart(old(s.carts), old(s.cartItems), cart).Ok? && CustomerOf(old(s.customers), user).None?
    ensures r.Ok? <==> ValidateCart(old(s.carts), old(s.cartItems), cart).Ok? && CustomerOf(old(s.customers), user).Some?
    ensures r.Err? ==> unchanged(s)
    ensures r.Ok? ==> r.value !in old(s.orders) && s.orders == old(s.orders)[r.value := Order(CustomerOf(old(s.customers), user).value)]
    ensures r.Ok? ==> var lines := CartLines(old(s.cartItems), cart);
              && lines != []
              && |s.orderItems| == |old(s.orderItems)| + |lines|
              && s.orderItems[..|old(s.orderItems)|] == old(s.orderItems)
              && Mirrors(s.orderItems[|old(s.orderItems)|..], lines, old(s.products), r.value, old(s.nextOrderItemId))
              && OrderTotal(s.orderItems[|old(s.orderItems)|..]) == Total(lines, old(s.products))
    ensures r.Ok? ==> s.carts == old(s.carts) - {cart} && s.cartItems == WithoutCart(old(s.cartItems), cart)
    ensures r.Ok? ==> r.value == old(s.nextOrderId) && s.nextOrderId == old(s.nextOrderId) + 1
    ensures r.Ok? ==> s.nextOrderItemId == old(s.nextOrderItemId) + |CartLines(old(s.cartItems), cart)|
    ensures s.products == old(s.products) && s.collections == old(s.collections) && s.customers == old(s.customers)
  {
    var valid := ValidateCart(s.carts, s.cartItems, cart);
    if valid.Err? {
      return Err(valid.error);
    }
    ghost var lines := CartLines(s.cartItems, cart);
    ghost var before := |s.orderItems|;
    ghost var prices := s.products;
    ghost var firstId := s.nextOrderItemId;
    assert lines != [] by {
      var x :| x in s.cartItems && x.cart == cart;
      assert x in lines;
    }
    r := s.SaveOrder(cart, user);
    if r.Ok? {
      OrderTotalMatchesCart(s.orderItems[before..], lines, prices, r.value, firstId);
    }
  }

  /** The orders placed by `customer`. */
  function OwnOrders(orders: map<OrderId, Order>, customer: CustomerId): (r: set<OrderId>)
    ensures r <= orders.Keys
    ensures forall o :: o in r <==> o in orders && orders[o].customer == customer
  {
    set o | o in orders && orders[o].customer == customer
  }

  /**
   * The orders a user may see: staff see every order; anyone else sees the
   * orders of their own customer, which is created on first use.
   */
  method ListOrders(s: Store, user: UserId, isStaff: bool) returns (ids: set<OrderId>)
    requires s.Valid()
    modifies s
    ensures s.Valid()
    ensures isStaff ==> ids == s.orders.Keys && unchanged(s)
    ensures !isStaff ==> CustomerOf(s.customers, user).Some? && ids == OwnOrders(s.orders, CustomerOf(s.customers, user).value)
    ensures !isStaff ==> forall o :: o in ids <==> o in s.orders && s.customers[s.orders[o].customer].user == user
    ensures !isStaff && CustomerOf(old(s.customers), user).Some? ==> unchanged(s)
    ensures !isStaff && CustomerOf(old(s.customers), user).None? ==>
              var c := CustomerOf(s.customers, user).value;
              && c == old(s.nextCustomerId) && s.nextCustomerId == c + 1
              && s.customers == old(s.customers)[c := Customer(user)]
    ensures unchanged(s`products, s`collections, s`carts, s`cartItems, s`orders, s`orderItems)
  {
    if isStaff {
      return s.orders.Keys;
    }
    var customer := Me(s, user);
    ids := OwnOrders(s.orders, customer);
  }

  /** No order is listed for two different customers. */
  lemma OwnOrdersDisjoint(orders: map<OrderId, Order>, c: CustomerId, d: CustomerId)
    requires c != d
    ensures OwnOrders(orders, c) !! OwnOrders(orders, d)
  {
  }

  /** Placing order `o` for `c` adds it to `c`'s orders and to nobody else's. */
  lemma OwnOrdersAfterPlacement(orders: map<OrderId, Order>, o: OrderId, c: CustomerId, d: CustomerId)
    requires o !in orders
    ensures OwnOrders(orders[o := Order(c)], c) == OwnOrders(orders, c) + {o}
    ensures d != c ==> OwnOrders(orders[o := Order(c)], d) == OwnOrders(orders, d)
  {
  }
}
