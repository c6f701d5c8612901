/**
 * The relational store, held in memory: one field per table, updated in place
 * by the writes of the cart and order serializers.
 */
module Database {
  import opened Wrappers
  import opened Models
  import opened Serializers

  class Store {
    var products: map<ProductId, Product>
    var collections: map<CollectionId, Collection>
    var carts: set<CartId>
    /** Cart items in table order; the cart's lines are read in this order. */
    var cartItems: seq<CartItem>
    var customers: map<CustomerId, Customer>
    var orders: map<OrderId, Order>
    /** Order items in insertion order. */
    var orderItems: seq<OrderItem>
    /** The next id each auto-increment key will hand out. */
    var nextCartItemId: nat
    var nextCustomerId: nat
    var nextOrderId: nat
    var nextOrderItemId: nat

    /** The schema's constraints: field validators, foreign keys and unique keys. */
    ghost predicate Valid()
      reads this
    {
      && CatalogValid(products, collections)
      && CartItemsValid(carts, cartItems, products, nextCartItemId)
      && CustomersValid(customers, nextCustomerId)
      && OrdersValid(orders, orderItems, customers, products, nextOrderId, nextOrderItemId)
    }

    /** A store holding the given tables, which must satisfy the schema. */
    constructor (products: map<ProductId, Product>, collections: map<CollectionId, Collection>,
                 carts: set<CartId>, cartItems: seq<CartItem>, customers: map<CustomerId, Customer>,
                 orders: map<OrderId, Order>, orderItems: seq<OrderItem>,
                 nextCartItemId: nat, nextCustomerId: nat, nextOrderId: nat, nextOrderItemId: nat)
      requires CatalogValid(products, collections)
      requires CartItemsValid(carts, cartItems, products, nextCartItemId)
      requires CustomersValid(customers, nextCustomerId)
      requires OrdersValid(orders, orderItems, customers, products, nextOrderId, nextOrderItemId)
      ensures Valid()
      ensures this.products == products && this.collections == collections
      ensures this.carts == carts && this.cartItems == cartItems
      ensures this.customers == customers && this.orders == orders && this.orderItems == orderItems
      ensures this.nextCartItemId == nextCartItemId && this.nextCustomerId == nextCustomerId
      ensures this.nextOrderId == nextOrderId && this.nextOrderItemId == nextOrderItemId
    {
      this.products := products;
      this.collections := collections;
      this.carts := carts;
      this.cartItems := cartItems;
      this.customers := customers;
      this.orders := orders;
      this.orderItems := orderItems;
      this.nextCartItemId := nextCartItemId;
      this.nextCustomerId := nextCustomerId;
      this.nextOrderId := nextOrderId;
      this.nextOrderItemId := nextOrderItemId;
    }

    /**
     * Adding `quantity` of `product` to `cart`: the product id is validated,
     * then the cart's line for the product gets the new quantity, or a new
     * line is inserted. The result is the id of the line.
     */
    method AddCartItem(cart: CartId, product: ProductId, quantity: Quantity) returns (r: Result<CartItemId>)
      requires Valid()
      modifies this
      ensures Valid()
      ensures r == Err(NoSuchProduct) <==> product !in old(products)
      ensures r == Err(IntegrityViolation) <==> product in old(products) && cart !in old(carts)
      ensures r.Ok? <==> product in old(products) && cart in old(carts)
      ensures r.Err? ==> unchanged(this)
      ensures r.Ok? ==> cartItems == Upsert(old(cartItems), cart, product, quantity, old(nextCartItemId))
      ensures r.Ok? ==> exists i :: 0 <= i < |cartItems| && cartItems[i].id == r.value && IsLine(cartItems[i], cart, product)
      ensures r.Ok? && HasLine(old(cartItems), cart, product) ==> nextCartItemId == old(nextCartItemId)
      ensures r.Ok? && !HasLine(old(cartItems), cart, product) ==>
                r.value == old(nextCartItemId) && nextCartItemId == old(nextCartItemId) + 1
      ensures unchanged(this`products, this`collections, this`carts, this`customers, this`orders, this`orderItems)
      ensures unchanged(this`nextCustomerId, this`nextOrderId, this`nextOrderItemId)
    {
      var valid := ValidateProductId(products, product);
      if valid.Err? {
        return Err(valid.error);
      }
      match LineIndex(cartItems, cart, product) {
        case Some(i) =>
          SetQuantity(i, quantity);
          r := Ok(cartItems[i].id);
        case None =>
          if cart !in carts {
            return Err(IntegrityViolation);
          }
          var id := AppendCartItem(cart, product, quantity);
          assert cartItems[|cartItems| - 1].id == id;
          r := Ok(id);
      }
    }

    /**
     * Setting the quantity of line `id` of `cart`; nothing else of the line
     * changes. A line that is not in that cart is not found.
     */
    method UpdateCartItem(cart: CartId, id: CartItemId, quantity: Quantity) returns (r: Result<CartItemId>)
      requires Valid()
      modifies this
      ensures Valid()
      ensures r.Err? <==> forall x :: x in old(cartItems) ==> !(x.cart == cart && x.id == id)
      ensures r.Err? ==> r.error == NotFound && unchanged(this)
      ensures r.Ok? ==> r.value == id && ItemIndex(old(cartItems), cart, id).Some?
      ensures r.Ok? ==> (var i := ItemIndex(old(cartItems), cart, id).value;
                         cartItems == old(cartItems)[i := old(cartItems)[i].(quantity := quantity)])
      ensures unchanged(this`products, this`collections, this`carts, this`customers, this`orders, this`orderItems)
      ensures unchanged(this`nextCartItemId, this`nextCustomerId, this`nextOrderId, this`nextOrderItemId)
    {
      match ItemIndex(cartItems, cart, id) {
        case None =>
          r := Err(NotFound);
        case Some(i) =>
          SetQuantity(i, quantity);
          r := Ok(id);
      }
    }

    /** The row at position `i` of the cart-item table gets quantity `quantity`. */
    method SetQuantity(i: nat, quantity: Quantity)
      requires Valid() && i < |cartItems|
      modifies this
      ensures Valid()
      ensures cartItems == old(cartItems)[i := old(cartItems)[i].(quantity := quantity)]
      ensures unchanged(this`products, this`collections, this`carts, this`customers, this`orders, this`orderItems)
      ensures unchanged(this`nextCartItemId, this`nextCustomerId, this`nextOrderId, this`nextOrderItemId)
    {
      assert cartItems[i] in cartItems;
      QuantityUpdateKeepsWellKeyed(cartItems, i, quantity);
      cartItems := cartItems[i := cartItems[i].(quantity := quantity)];
    }

    /** A new line for a (cart, product) pair that has none, under the next free id. */
    method AppendCartItem(cart: CartId, product: ProductId, quantity: Quantity) returns (id: CartItemId)
      requires Valid() && cart in carts && product in products && !HasLine(cartItems, cart, product)
      modifies this
      ensures Valid()
      ensures id == old(nextCartItemId) && nextCartItemId == id + 1
      ensures cartItems == old(cartItems) + [CartItem(id, cart, product, quantity)]
      ensures unchanged(this`products, this`collections, this`carts, this`customers, this`orders, this`orderItems)
      ensures unchanged(this`nextCustomerId, this`nextOrderId, this`nextOrderItemId)
    {
      id := nextCartItemId;
      UpsertKeepsWellKeyed(cartItems, cart, product, quantity, id);
      cartItems := cartItems + [CartItem(id, cart, product, quantity)];
      nextCartItemId := id + 1;
    }

    /**
     * Saving a validated order, all or nothing: the user's customer is looked
     * up (and must exist), one order is created for it, one order item per
     * cart line copies the line's product and quantity and the product's
     * current price, and the cart is deleted together with its lines.
     */
    method SaveOrder(cart: CartId, user: UserId) returns (r: Result<OrderId>)
      requires Valid()
      requires ValidateCart(carts, cartItems, cart).Ok?
      modifies this
      ensures Valid()
      ensures r.Err? <==> CustomerOf(old(customers), user).None?
      ensures r.Err? ==> r.error == NoSuchCustomer && unchanged(this)
      ensures r.Ok? ==> r.value !in old(orders) && orders == old(orders)[r.value := Order(CustomerOf(old(customers), user).value)]
      ensures r.Ok? ==> Priced(CartLines(old(cartItems), cart), old(products))
      ensures r.Ok? ==> var lines := CartLines(old(cartItems), cart);
                && |orderItems| == |old(orderItems)| + |lines|
                && orderItems[..|old(orderItems)|] == old(orderItems)
                && Mirrors(orderItems[|old(orderItems)|..], lines, old(products), r.value, old(nextOrderItemId))
      ensures r.Ok? ==> carts == old(carts) - {cart} && cartItems == WithoutCart(old(cartItems), cart)
      ensures r.Ok? ==> r.value == old(nextOrderId) && nextOrderId == old(nextOrderId) + 1
      ensures r.Ok? ==> nextOrderItemId == old(nextOrderItemId) + |CartLines(old(cartItems), cart)|
      ensures products == old(products) && collections == old(collections) && customers == old(customers)
      ensures nextCartItemId == old(nextCartItemId) && nextCustomerId == old(nextCustomerId)
    {
      var lines := CartLines(cartItems, cart);
      if !exists c :: c in customers && customers[c].user == user {
        return Err(NoSuchCustomer);
      }
      var customer :| customer in customers && customers[customer].user == user;
      assert customer == CustomerOf(customers, user).value;
      assert Priced(lines, products);
      var order := InsertOrder(customer, lines);
      DeleteCart(cart);
      r := Ok(order);
    }

    /**
     * One new order for `customer`, and after the existing order items one
     * new item per line of `lines`, carrying the product's current price.
     */
    method InsertOrder(customer: CustomerId, lines: seq<CartItem>) returns (order: OrderId)
      requires Valid()
      requires customer in customers && Priced(lines, products)
      modifies this
      ensures Valid()
      ensures order == old(nextOrderId) && order !in old(orders)
      ensures nextOrderId == order + 1 && nextOrderItemId == old(nextOrderItemId) + |lines|
      ensures orders == old(orders)[order := Order(customer)]
      ensures |orderItems| == |old(orderItems)| + |lines|
      ensures orderItems[..|old(orderItems)|] == old(orderItems)
      ensures Mirrors(orderItems[|old(orderItems)|..], lines, old(products), order, old(nextOrderItemId))
      ensures unchanged(this`products, this`collections, this`carts, this`cartItems, this`customers)
      ensures unchanged(this`nextCartItemId, this`nextCustomerId)
    {
      order := nextOrderId;
      var firstId := nextOrderItemId;
      var items := BuildOrderItems(lines, products, order, firstId);
      assert (orderItems + items)[..|orderItems|] == orderItems && (orderItems + items)[|orderItems|..] == items;
      PlacementKeepsOrdersValid(orders, orderItems, customers, products, order, firstId, customer, lines, items,
                                orders[order := Order(customer)], orderItems + items);
      orders := orders[order := Order(customer)];
      nextOrderId := nextOrderId + 1;
      orderItems := orderItems + items;
      nextOrderItemId := nextOrderItemId + |items|;
    }

    /** Deleting cart `cart`; its lines are deleted with it (CASCADE). */
    method DeleteCart(cart: CartId)
      requires Valid()
      modifies this
      ensures Valid()
      ensures carts == old(carts) - {cart} && cartItems == WithoutCart(old(cartItems), cart)
      ensures unchanged(this`products, this`collections, this`customers, this`orders, this`orderItems)
      ensures unchanged(this`nextCartItemId, this`nextCustomerId, this`nextOrderId, this`nextOrderItemId)
    {
      DeletionKeepsCartItemsValid(carts, cartItems, products, nextCartItemId, cart);
      cartItems := WithoutCart(cartItems, cart);
      carts := carts - {cart};
    }

    /**
     * Deleting product `pid`: refused while an order item references it
     * (PROTECT); otherwise collections featuring it lose their featured
     * product (SET_NULL) and cart lines of it are deleted with it (CASCADE).
     */
    method DeleteProduct(pid: ProductId) returns (r: Result<ProductId>)
      requires Valid()
      requires pid in products
      modifies this
      ensures Valid()
      ensures r.Err? <==> exists x :: x in old(orderItems) && x.product == pid
      ensures r.Err? ==> r.error == ProductInUse && unchanged(this)
      ensures r.Ok? ==> r.value == pid && products == old(products) - {pid}
      ensures r.Ok? ==> collections == ClearFeatured(old(collections), pid)
      ensures r.Ok? ==> cartItems == WithoutProduct(old(cartItems), pid)
      ensures unchanged(this`carts, this`customers, this`orders, this`orderItems)
      ensures unchanged(this`nextCartItemId, this`nextCustomerId, this`nextOrderId, this`nextOrderItemId)
    {
      if exists x :: x in orderItems && x.product == pid {
        return Err(ProductInUse);
      }
      RemoveProduct(pid);
      r := Ok(pid);
    }

    /** The deletion itself, once no order item references the product. */
    method RemoveProduct(pid: ProductId)
      requires Valid()
      requires forall x :: x in orderItems ==> x.product != pid
      modifies this
      ensures Valid()
      ensures products == old(products) - {pid} && collections == ClearFeatured(old(collections), pid)
      ensures cartItems == WithoutProduct(old(cartItems), pid)
      ensures unchanged(this`carts, this`customers, this`orders, this`orderItems)
      ensures unchanged(this`nextCartItemId, this`nextCustomerId, this`nextOrderId, this`nextOrderItemId)
    {
      ProductDeletionKeepsStoreValid(products, collections, carts, cartItems, nextCartItemId, orders, orderItems,
                                     customers, nextOrderId, nextOrderItemId, pid);
      products := products - {pid};
      collections := ClearFeatured(collections, pid);
      cartItems := WithoutProduct(cartItems, pid);
    }

    /** Deleting collection `cid`: refused while a product belongs to it (PROTECT). */
    method DeleteCollection(cid: CollectionId) returns (r: Result<CollectionId>)
      requires Valid()
      requires cid in collections
      modifies this
      ensures Valid()
      ensures r.Err? <==> exists p :: p in old(products) && old(products)[p].collection == cid
      ensures r.Err? ==> r.error == CollectionInUse && unchanged(this)
      ensures r.Ok? ==> r.value == cid && collections == old(collections) - {cid}
      ensures unchanged(this`products, this`carts, this`cartItems, this`customers, this`orders, this`orderItems)
      ensures unchanged(this`nextCartItemId, this`nextCustomerId, this`nextOrderId, this`nextOrderItemId)
    {
      if exists p :: p in products && products[p].collection == cid {
        return Err(CollectionInUse);
      }
      collections := collections - {cid};
      r := Ok(cid);
    }

    /**
     * The customer of `user`, created if there is none yet; `created` tells
     * which. A user never gets a second customer.
     */
    method GetOrCreateCustomer(user: UserId) returns (customer: CustomerId, created: bool)
      requires Valid()
      modifies this
      ensures Valid()
      ensures customer in customers && customers[customer].user == user
      ensures CustomerOf(customers, user) == Some(customer)
      ensures created <==> CustomerOf(old(customers), user).None?
      ensures !created ==> customer == CustomerOf(old(customers), user).value && unchanged(this)
      ensures created ==> customer == old(nextCustomerId) && customer !in old(customers)
      ensures created ==> customers == old(customers)[customer := Customer(user)] && nextCustomerId == old(nextCustomerId) + 1
      ensures unchanged(this`products, this`collections, this`carts, this`cartItems, this`orders, this`orderItems)
      ensures unchanged(this`nextCartItemId, this`nextOrderId, this`nextOrderItemId)
    {
      if exists c :: c in customers && customers[c].user == user {
        customer :| customer in customers && customers[customer].user == user;
        created := false;
      } else {
        customer := nextCustomerId;
        customers := customers[customer := Customer(user)];
        nextCustomerId := nextCustomerId + 1;
        created := true;
      }
    }
  }

  /** Adding one order and its mirrored items keeps the order tables' foreign keys and ids valid. */
  lemma PlacementKeepsOrdersValid(orders: map<OrderId, Order>, orderItems: seq<OrderItem>,
                                  customers: map<CustomerId, Customer>, products: map<ProductId, Product>,
                                  order: OrderId, firstId: OrderItemId, customer: CustomerId,
                                  lines: seq<CartItem>, items: seq<OrderItem>,
                                  orders': map<OrderId, Order>, orderItems': seq<OrderItem>)
    requires OrdersValid(orders, orderItems, customers, products, order, firstId)
    requires customer in customers && Priced(lines, products)
    requires Mirrors(items, lines, products, order, firstId)
    requires orders' == orders[order := Order(customer)] && orderItems' == orderItems + items
    ensures OrdersValid(orders', orderItems', customers, products, order + 1, firstId + |items|)
  {
    forall x | x in orderItems'
      ensures x.order in orders' && x.product in products && x.id < firstId + |items|
    {
      if x !in orderItems {
        var k :| 0 <= k < |items| && items[k] == x;
        assert lines[k] in lines;
      }
    }
    var n := |orderItems|;
    forall i, j | 0 <= i < j < |orderItems'| ensures orderItems'[i].id != orderItems'[j].id {
      if j >= n {
        assert orderItems'[j] == items[j - n] && items[j - n].id == firstId + (j - n);
        if i < n {
          assert orderItems'[i] == orderItems[i] && orderItems[i] in orderItems;
        } else {
          assert orderItems'[i] == items[i - n] && items[i - n].id == firstId + (i - n);
        }
      }
    }
  }

  /** Deleting a cart together with its lines keeps the cart-item table valid. */
  lemma DeletionKeepsCartItemsValid(carts: set<CartId>, cartItems: seq<CartItem>, products: map<ProductId, Product>,
                                    nextId: nat, cart: CartId)
    requires CartItemsValid(carts, cartItems, products, nextId)
    ensures CartItemsValid(carts - {cart}, WithoutCart(cartItems, cart), products, nextId)
  {
  }

  /** Deleting a product that no order item references keeps every constraint that mentions products. */
  lemma ProductDeletionKeepsStoreValid(products: map<ProductId, Product>, collections: map<CollectionId, Collection>,
                                       carts: set<CartId>, cartItems: seq<CartItem>, nextCartItemId: nat,
                                       orders: map<OrderId, Order>, orderItems: seq<OrderItem>,
                                       customers: map<CustomerId, Customer>, nextOrderId: nat, nextOrderItemId: nat,
                                       pid: ProductId)
    requires CatalogValid(products, collections)
    requires CartItemsValid(carts, cartItems, products, nextCartItemId)
    requires OrdersValid(orders, orderItems, customers, products, nextOrderId, nextOrderItemId)
    requires forall x :: x in orderItems ==> x.product != pid
    ensures CatalogValid(products - {pid}, ClearFeatured(collections, pid))
    ensures CartItemsValid(carts, WithoutProduct(cartItems, pid), products - {pid}, nextCartItemId)
    ensures OrdersValid(orders, orderItems, customers, products - {pid}, nextOrderId, nextOrderItemId)
  {
    var collections' := ClearFeatured(collections, pid);
    forall c | c in collections' && collections'[c].featuredProduct.Some?
      ensures collections'[c].featuredProduct.value in products - {pid}
    {
      assert collections'[c] == collections[c];
    }
  }
}
