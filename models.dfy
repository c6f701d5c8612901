/**
 * The store's tables: one datatype per row kind, the field constraints of the
 * catalog, and the referential rules (PROTECT, SET_NULL, CASCADE) that tie the
 * tables together. Prices are integer cents: a two-decimal `Decimal` is exact,
 * so nothing is lost.
 */
module Models {
  import opened Wrappers

  type ProductId = nat
  type CollectionId = nat
  /** A cart is addressed by a UUID; any value with equality will do here. */
  type CartId = nat
  type CartItemId = nat
  type UserId = nat
  type CustomerId = nat
  type OrderId = nat
  type OrderItemId = nat
  type Cents = int

  /** `MinValueValidator(1)` on a price in currency units: 1.00. */
  const MinUnitPrice: Cents := 100
  /** `max_digits=6, decimal_places=2`: at most 9999.99. */
  const MaxUnitPrice: Cents := 999999
  /** `MinValueValidator(1)` on the inventory count. */
  const MinInventory: int := 1

  /** A line quantity is a positive integer. */
  type Quantity = q: int | q >= 1 witness 1

  datatype Collection = Collection(title: string, featuredProduct: Option<ProductId>)

  datatype Product = Product(title: string, unitPrice: Cents, inventory: int, collection: CollectionId)
  {
    /** The field validators of the product model. */
    predicate Valid() {
      MinUnitPrice <= unitPrice <= MaxUnitPrice && inventory >= MinInventory
    }
  }

  datatype CartItem = CartItem(id: CartItemId, cart: CartId, product: ProductId, quantity: Quantity)

  datatype Customer = Customer(user: UserId)

  datatype Order = Order(customer: CustomerId)

  /** `unitPrice` is a copy of the product's price taken when the order was placed. */
  datatype OrderItem = OrderItem(id: OrderItemId, order: OrderId, product: ProductId, quantity: Quantity, unitPrice: Cents)

  datatype Error =
    | NoSuchProduct       // validation of a cart item's product id
    | NoSuchCart          // validation of an order's cart id
    | EmptyCart           // validation of an order's cart id
    | NoSuchCustomer      // `Customer.objects.get` found no customer for the user
    | NotFound            // `get_object_or_404`
    | ProductInUse        // a product still referenced by an order item
    | CollectionInUse     // a collection that still has products
    | IntegrityViolation  // a row that would reference a missing cart

  datatype Result<T> = Ok(value: T) | Err(error: Error)

  /** The text the API reports for each error. */
  function Message(e: Error): string {
    match e
    case NoSuchProduct => "No product with the given id"
    case NoSuchCart => "No cart with the given id."
    case EmptyCart => "The cart is empty."
    case NoSuchCustomer => "Customer matching query does not exist."
    case NotFound => "Not found."
    case ProductInUse => "Product cannot be deleted because it is associated with an order item."
    case CollectionInUse => "Collection cannot be deleted."
    case IntegrityViolation => "FOREIGN KEY constraint failed"
  }

  // ---------------------------------------------------------------------------
  // Filtering the cart-item table

  /** The rows of `rows` that satisfy `keep`, in table order (a `filter` query). */
  function Keep(rows: seq<CartItem>, keep: CartItem -> bool): (r: seq<CartItem>)
    ensures |r| <= |rows|
    ensures forall x :: x in r <==> x in rows && keep(x)
  {
    if rows == [] then []
    else if keep(rows[0]) then [rows[0]] + Keep(rows[1..], keep)
    else Keep(rows[1..], keep)
  }

  /** Two rows that would be the same line: same cart, same product. */
  predicate SameLine(a: CartItem, b: CartItem) {
    a.cart == b.cart && a.product == b.product
  }

  /** No other row of `rows` shares `x`'s id or its (cart, product) pair. */
  predicate KeyFresh(x: CartItem, rows: seq<CartItem>) {
    forall y :: y in rows ==> y.id != x.id && !SameLine(x, y)
  }

  /** Row ids are unique, and so is each (cart, product) pair. */
  predicate WellKeyed(rows: seq<CartItem>) {
    forall i, j :: 0 <= i < j < |rows| ==> rows[i].id != rows[j].id && !SameLine(rows[i], rows[j])
  }

  lemma WellKeyedCons(x: CartItem, rows: seq<CartItem>)
    ensures WellKeyed([x] + rows) <==> KeyFresh(x, rows) && WellKeyed(rows)
  {
    var s := [x] + rows;
    if WellKeyed(s) {
      forall y | y in rows ensures y.id != x.id && !SameLine(x, y) {
        var k :| 0 <= k < |rows| && rows[k] == y;
        assert s[0] == x && s[k + 1] == y;
      }
      forall i, j | 0 <= i < j < |rows|
        ensures rows[i].id != rows[j].id && !SameLine(rows[i], rows[j])
      {
        assert s[i + 1] == rows[i] && s[j + 1] == rows[j];
      }
    }
    if KeyFresh(x, rows) && WellKeyed(rows) {
      forall i, j | 0 <= i < j < |s| ensures s[i].id != s[j].id && !SameLine(s[i], s[j]) {
        assert s[j] == rows[j - 1];
        if i > 0 {
          assert s[i] == rows[i - 1];
        } else {
          assert s[j] in rows;
        }
      }
    }
  }

  /** Filtering keeps a table well keyed: a filtered table has no duplicate line. */
  lemma {:induction false} KeepWellKeyed(rows: seq<CartItem>, keep: CartItem -> bool)
    requires WellKeyed(rows)
    ensures WellKeyed(Keep(rows, keep))
  {
    if rows != [] {
      assert rows == [rows[0]] + rows[1..];
      WellKeyedCons(rows[0], rows[1..]);
      KeepWellKeyed(rows[1..], keep);
      if keep(rows[0]) {
        var rest := Keep(rows[1..], keep);
        forall y | y in rest ensures y.id != rows[0].id && !SameLine(rows[0], y) {
          assert y in rows[1..];
        }
        WellKeyedCons(rows[0], rest);
      }
    }
  }

  // ---------------------------------------------------------------------------
  // Referential rules

  /**
   * `featuerd_product` is `SET_NULL`: deleting product `pid` clears the featured
   * product of every collection that pointed at it and leaves the others alone.
   */
  function ClearFeatured(collections: map<CollectionId, Collection>, pid: ProductId): (r: map<CollectionId, Collection>)
    ensures r.Keys == collections.Keys
    ensures forall c :: c in r ==> r[c].featuredProduct != Some(pid) && r[c].title == collections[c].title
    ensures forall c :: c in r && collections[c].featuredProduct != Some(pid) ==> r[c] == collections[c]
    ensures forall c :: c in r && collections[c].featuredProduct == Some(pid) ==>
              r[c] == collections[c].(featuredProduct := None)
  {
    map c | c in collections ::
      if collections[c].featuredProduct == Some(pid) then collections[c].(featuredProduct := None)
      else collections[c]
  }

  /** The cart-item table after cart `cart` is deleted: its lines go with it (CASCADE). */
  function WithoutCart(rows: seq<CartItem>, cart: CartId): (r: seq<CartItem>)
    ensures forall x :: x in r <==> x in rows && x.cart != cart
    ensures WellKeyed(rows) ==> WellKeyed(r)
  {
    var keep := (x: CartItem) => x.cart != cart;
    if WellKeyed(rows) then KeepWellKeyed(rows, keep); Keep(rows, keep) else Keep(rows, keep)
  }

  /** The cart-item table after product `pid` is deleted: lines of that product go with it (CASCADE). */
  function WithoutProduct(rows: seq<CartItem>, pid: ProductId): (r: seq<CartItem>)
    ensures forall x :: x in r <==> x in rows && x.product != pid
    ensures WellKeyed(rows) ==> WellKeyed(r)
  {
    var keep := (x: CartItem) => x.product != pid;
    if WellKeyed(rows) then KeepWellKeyed(rows, keep); Keep(rows, keep) else Keep(rows, keep)
  }

  /** `collection.product_set.count()`. */
  function ProductCount(products: map<ProductId, Product>, cid: CollectionId): (n: nat)
    ensures n > 0 <==> exists p :: p in products && products[p].collection == cid
  {
    var inCollection := set p | p in products && products[p].collection == cid;
    assert forall p :: p in products && products[p].collection == cid ==> p in inCollection;
    |inCollection|
  }

  /** `product.orderitem_set.count()`. */
  function OrderItemCount(items: seq<OrderItem>, pid: ProductId): (n: nat)
    ensures n > 0 <==> exists i :: 0 <= i < |items| && items[i].product == pid
    ensures n <= |items|
  {
    if items == [] then 0
    else
      var rest := OrderItemCount(items[1..], pid);
      assert forall i :: 0 < i < |items| ==> items[i] == items[1..][i - 1];
      assert forall i :: 0 <= i < |items| - 1 ==> items[1..][i] == items[i + 1];
      (if items[0].product == pid then 1 else 0) + rest
  }

  /** The customer of user `user` (the `Customer.objects.get(user_id=...)` lookup), if there is one. */
  ghost function CustomerOf(customers: map<CustomerId, Customer>, user: UserId): (r: Option<CustomerId>)
    ensures r.Some? ==> r.value in customers && customers[r.value].user == user
    ensures r.None? <==> forall c :: c in customers ==> customers[c].user != user
    ensures OneCustomerPerUser(customers) ==>
              forall c :: c in customers && customers[c].user == user ==> r == Some(c)
  {
    if exists c :: c in customers && customers[c].user == user then
      var c :| c in customers && customers[c].user == user; Some(c)
    else None
  }

  // ---------------------------------------------------------------------------
  // The invariants of the whole store

  /** Every product passes its field validators, and the catalog's foreign keys resolve. */
  ghost predicate CatalogValid(products: map<ProductId, Product>, collections: map<CollectionId, Collection>) {
    && (forall p :: p in products ==> products[p].Valid() && products[p].collection in collections)
    && (forall c :: c in collections && collections[c].featuredProduct.Some? ==>
          collections[c].featuredProduct.value in products)
  }

  /** Every cart item belongs to an existing cart and product, is well keyed, and has an issued id. */
  ghost predicate CartItemsValid(carts: set<CartId>, cartItems: seq<CartItem>, products: map<ProductId, Product>, nextId: nat) {
    && WellKeyed(cartItems)
    && (forall x :: x in cartItems ==> x.cart in carts && x.product in products && x.id < nextId)
  }

  /** The customer's user link is one-to-one. */
  ghost predicate OneCustomerPerUser(customers: map<CustomerId, Customer>) {
    forall c, d :: c in customers && d in customers && customers[c].user == customers[d].user ==> c == d
  }

  /** One customer per user, each under an issued id. */
  ghost predicate CustomersValid(customers: map<CustomerId, Customer>, nextId: nat) {
    && (forall c :: c in customers ==> c < nextId)
    && OneCustomerPerUser(customers)
  }

  /**
   * Orders belong to existing customers; order items to existing orders and
   * products (PROTECT); order-item ids are issued and unique.
   */
  ghost predicate OrdersValid(orders: map<OrderId, Order>, orderItems: seq<OrderItem>, customers: map<CustomerId, Customer>,
                              products: map<ProductId, Product>, nextOrderId: nat, nextOrderItemId: nat) {
    && (forall o :: o in orders ==> o < nextOrderId && orders[o].customer in customers)
    && (forall x :: x in orderItems ==> x.order in orders && x.product in products && x.id < nextOrderItemId)
    && (forall i, j :: 0 <= i < j < |orderItems| ==> orderItems[i].id != orderItems[j].id)
  }
}
