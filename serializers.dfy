/**
 * The logic of the cart and order serializers: validating ids, the upsert of a
 * cart line, line and cart totals, and building an order's items from a cart.
 */
module Serializers {
  import opened Wrappers
  import opened Models

  // ---------------------------------------------------------------------------
  // Adding an item to a cart

  /** The product id of a new cart line must name an existing product. */
  function ValidateProductId(products: map<ProductId, Product>, pid: ProductId): (r: Result<ProductId>)
    ensures r.Ok? <==> pid in products
    ensures r.Ok? ==> r.value == pid
    ensures r.Err? ==> r.error == NoSuchProduct && Message(r.error) == "No product with the given id"
  {
    if pid !in products then Err(NoSuchProduct) else Ok(pid)
  }

  /** `x` is the line of `product` in `cart`. */
  predicate IsLine(x: CartItem, cart: CartId, product: ProductId) {
    x.cart == cart && x.product == product
  }

  predicate HasLine(rows: seq<CartItem>, cart: CartId, product: ProductId) {
    exists i :: 0 <= i < |rows| && IsLine(rows[i], cart, product)
  }

  /** The cart-item lookup by (product, cart): the first matching row, if any. */
  function LineIndex(rows: seq<CartItem>, cart: CartId, product: ProductId): (r: Option<nat>)
    ensures r.Some? ==> r.value < |rows| && IsLine(rows[r.value], cart, product)
    ensures r.Some? ==> forall j :: 0 <= j < r.value ==> !IsLine(rows[j], cart, product)
    ensures r.None? <==> !HasLine(rows, cart, product)
  {
    if rows == [] then None
    else if IsLine(rows[0], cart, product) then Some(0)
    else
      match LineIndex(rows[1..], cart, product)
      case None =>
        assert forall i :: 0 < i < |rows| ==> rows[i] == rows[1..][i - 1];
        None
      case Some(k) =>
        assert forall j :: 0 < j < k + 1 ==> rows[j] == rows[1..][j - 1];
        Some(k + 1)
  }

  /**
   * The cart-item table after adding `quantity` of `product` to `cart`: an
   * existing line gets the new quantity (it is overwritten, not increased);
   * otherwise one line with the fresh id `newId` is appended.
   */
  function Upsert(rows: seq<CartItem>, cart: CartId, product: ProductId, quantity: Quantity, newId: CartItemId): (r: seq<CartItem>)
    ensures HasLine(rows, cart, product) ==> |r| == |rows|
    ensures !HasLine(rows, cart, product) ==> r == rows + [CartItem(newId, cart, product, quantity)]
    ensures forall i :: 0 <= i < |rows| && !IsLine(rows[i], cart, product) ==> r[i] == rows[i]
    ensures exists i :: 0 <= i < |r| && IsLine(r[i], cart, product) && r[i].quantity == quantity
    ensures forall i :: 0 <= i < |rows| && IsLine(rows[i], cart, product) ==> r[i].id == rows[i].id
  {
    match LineIndex(rows, cart, product)
    case Some(i) =>
      var r := rows[i := rows[i].(quantity := quantity)];
      assert IsLine(r[i], cart, product) && r[i].quantity == quantity;
      r
    case None =>
      var r := rows + [CartItem(newId, cart, product, quantity)];
      assert IsLine(r[|rows|], cart, product) && r[|rows|].quantity == quantity;
      r
  }

  /**
   * An upsert with a fresh id keeps the table well keyed, so afterwards the
   * cart holds exactly one line for the product, carrying the new quantity.
   */
  lemma UpsertKeepsWellKeyed(rows: seq<CartItem>, cart: CartId, product: ProductId, quantity: Quantity, newId: CartItemId)
    requires WellKeyed(rows)
    requires forall x :: x in rows ==> x.id < newId
    ensures WellKeyed(Upsert(rows, cart, product, quantity, newId))
    ensures forall i :: 0 <= i < |Upsert(rows, cart, product, quantity, newId)| &&
                        IsLine(Upsert(rows, cart, product, quantity, newId)[i], cart, product) ==>
                        Upsert(rows, cart, product, quantity, newId)[i].quantity == quantity
  {
    var r := Upsert(rows, cart, product, quantity, newId);
    if HasLine(rows, cart, product) {
      var k := LineIndex(rows, cart, product).value;
      assert r == rows[k := rows[k].(quantity := quantity)];
      forall i, j | 0 <= i < j < |r| ensures r[i].id != r[j].id && !SameLine(r[i], r[j]) {
        assert r[i].id == rows[i].id && SameLine(r[i], rows[i]);
        assert r[j].id == rows[j].id && SameLine(r[j], rows[j]);
      }
      forall i | 0 <= i < |r| && IsLine(r[i], cart, product) ensures r[i].quantity == quantity {
        if i != k {
          assert false;
        }
      }
    } else {
      var x := CartItem(newId, cart, product, quantity);
      forall i, j | 0 <= i < j < |r| ensures r[i].id != r[j].id && !SameLine(r[i], r[j]) {
        if j == |rows| {
          assert r[i] == rows[i] && r[i] in rows;
          assert !IsLine(rows[i], cart, product);
        }
      }
    }
  }

  /** The cart-item lookup by (cart, id), as done by the cart's item endpoint. */
  function ItemIndex(rows: seq<CartItem>, cart: CartId, id: CartItemId): (r: Option<nat>)
    ensures r.Some? ==> r.value < |rows| && rows[r.value].cart == cart && rows[r.value].id == id
    ensures r.None? <==> forall i :: 0 <= i < |rows| ==> !(rows[i].cart == cart && rows[i].id == id)
  {
    if rows == [] then None
    else if rows[0].cart == cart && rows[0].id == id then Some(0)
    else
      match ItemIndex(rows[1..], cart, id)
      case None =>
        assert forall i :: 0 < i < |rows| ==> rows[i] == rows[1..][i - 1];
        None
      case Some(k) => Some(k + 1)
  }

  /** Changing only a line's quantity keeps every key, so the table stays well keyed. */
  lemma QuantityUpdateKeepsWellKeyed(rows: seq<CartItem>, i: nat, quantity: Quantity)
    requires WellKeyed(rows) && i < |rows|
    ensures WellKeyed(rows[i := rows[i].(quantity := quantity)])
  {
    var r := rows[i := rows[i].(quantity := quantity)];
    forall a, b | 0 <= a < b < |r| ensures r[a].id != r[b].id && !SameLine(r[a], r[b]) {
      assert r[a].id == rows[a].id && SameLine(r[a], rows[a]);
      assert r[b].id == rows[b].id && SameLine(r[b], rows[b]);
    }
  }

  // ---------------------------------------------------------------------------
  // Totals

  /** Every line names a product whose price is known. */
  predicate Priced(lines: seq<CartItem>, products: map<ProductId, Product>) {
    forall x :: x in lines ==> x.product in products
  }

  /** A line's total: its product's unit price times its quantity. */
  function LineTotal(line: CartItem, products: map<ProductId, Product>): (t: Cents)
    requires line.product in products
    ensures products[line.product].Valid() ==>
              MinUnitPrice * line.quantity <= t <= MaxUnitPrice * line.quantity
  {
    var price := products[line.product].unitPrice;
    assert products[line.product].Valid() ==> MinUnitPrice * line.quantity <= price * line.quantity by {
      if products[line.product].Valid() {
        PriceBound(MinUnitPrice, price, line.quantity);
      }
    }
    assert products[line.product].Valid() ==> price * line.quantity <= MaxUnitPrice * line.quantity by {
      if products[line.product].Valid() {
        PriceBound(price, MaxUnitPrice, line.quantity);
      }
    }
    price * line.quantity
  }

  lemma PriceBound(a: int, b: int, q: nat)
    requires a <= b
    ensures a * q <= b * q
  {
  }

  /** The sum of the line totals, accumulated from the first line to the last. */
  function Total(lines: seq<CartItem>, products: map<ProductId, Product>): Cents
    requires Priced(lines, products)
  {
    if lines == [] then 0
    else Total(lines[..|lines| - 1], products) + LineTotal(lines[|lines| - 1], products)
  }

  /** The cart total: a running sum over the cart's lines. */
  method CartTotal(lines: seq<CartItem>, products: map<ProductId, Product>) returns (total: Cents)
    requires Priced(lines, products)
    ensures total == Total(lines, products)
    ensures lines == [] ==> total == 0
  {
    total := 0;
    for i := 0 to |lines|
      invariant total == Total(lines[..i], products)
    {
      assert lines[..i + 1][..i] == lines[..i];
      total := total + LineTotal(lines[i], products);
    }
    assert lines[..|lines|] == lines;
  }

  /** Removing one line takes exactly that line's total off the sum. */
  lemma {:induction false} TotalRemove(lines: seq<CartItem>, products: map<ProductId, Product>, j: nat)
    requires Priced(lines, products) && j < |lines|
    ensures Priced(lines[..j] + lines[j + 1..], products)
    ensures Total(lines, products) == Total(lines[..j] + lines[j + 1..], products) + LineTotal(lines[j], products)
  {
    var n := |lines|;
    var rest := lines[..j] + lines[j + 1..];
    assert forall x :: x in rest ==> x in lines;
    if j == n - 1 {
      assert rest == lines[..n - 1];
    } else {
      var front := lines[..n - 1];
      assert front[..j] == lines[..j];
      assert front[j + 1..] == lines[j + 1..n - 1];
      assert forall x :: x in front ==> x in lines;
      TotalRemove(front, products, j);
      var frontRest := front[..j] + front[j + 1..];
      assert rest == frontRest + [lines[n - 1]];
      assert rest[..|rest| - 1] == frontRest;
    }
  }

  /**
   * The order in which the database returns a cart's lines does not matter:
   * any permutation of the lines has the same total.
   */
  lemma {:induction false} TotalPermutation(a: seq<CartItem>, b: seq<CartItem>, products: map<ProductId, Product>)
    requires Priced(a, products) && Priced(b, products)
    requires multiset(a) == multiset(b)
    ensures Total(a, products) == Total(b, products)
  {
    if a == [] {
      assert |multiset(b)| == 0;
    } else {
      var i := |a| - 1;
      var x := a[i];
      assert x in multiset(b);
      var j :| 0 <= j < |b| && b[j] == x;
      TotalRemove(a, products, i);
      TotalRemove(b, products, j);
      RemoveOne(a, i);
      RemoveOne(b, j);
      TotalPermutation(a[..i] + a[i + 1..], b[..j] + b[j + 1..], products);
    }
  }

  /** Taking out the row at `j` takes one copy of it out of the multiset of rows. */
  lemma RemoveOne(rows: seq<CartItem>, j: nat)
    requires j < |rows|
    ensures multiset(rows[..j] + rows[j + 1..]) == multiset(rows) - multiset{rows[j]}
  {
    assert rows == rows[..j] + [rows[j]] + rows[j + 1..];
  }

  // ---------------------------------------------------------------------------
  // Placing an order

  /** The cart's rows in the cart-item table (the `filter(cart_id=...)` query). */
  function CartLines(rows: seq<CartItem>, cart: CartId): (r: seq<CartItem>)
    ensures forall x :: x in r <==> x in rows && x.cart == cart
  {
    Keep(rows, (x: CartItem) => x.cart == cart)
  }

  /**
   * Validation of the cart id of a new order: the cart must exist and hold
   * at least one line.
   */
  function ValidateCart(carts: set<CartId>, rows: seq<CartItem>, cart: CartId): (r: Result<CartId>)
    ensures r == Err(NoSuchCart) <==> cart !in carts
    ensures r == Err(EmptyCart) <==> cart in carts && forall x :: x in rows ==> x.cart != cart
    ensures r.Ok? ==> r.value == cart && exists x :: x in rows && x.cart == cart
    ensures r.Ok? || r == Err(NoSuchCart) || r == Err(EmptyCart)
    ensures r.Err? ==> Message(r.error) == (if cart !in carts then "No cart with the given id." else "The cart is empty.")
  {
    if cart !in carts then Err(NoSuchCart)
    else if |CartLines(rows, cart)| == 0 then
      assert forall x :: x in rows && x.cart == cart ==> x in CartLines(rows, cart);
      Err(EmptyCart)
    else
      assert CartLines(rows, cart)[0] in CartLines(rows, cart);
      Ok(cart)
  }

  /**
   * `items` mirror `lines`, in order: one order item per line, with a fresh
   * id, the given order, the same product and quantity, and the product's
   * current price as its frozen unit price.
   */
  ghost predicate Mirrors(items: seq<OrderItem>, lines: seq<CartItem>, products: map<ProductId, Product>,
                          order: OrderId, firstId: OrderItemId)
    requires Priced(lines, products)
  {
    && |items| == |lines|
    && forall k :: 0 <= k < |items| ==>
         items[k] == OrderItem(firstId + k, order, lines[k].product, lines[k].quantity, products[lines[k].product].unitPrice)
  }

  /** The loop that turns the cart's lines into the order's items. */
  method BuildOrderItems(lines: seq<CartItem>, products: map<ProductId, Product>, order: OrderId, firstId: OrderItemId)
    returns (items: seq<OrderItem>)
    requires Priced(lines, products)
    ensures Mirrors(items, lines, products, order, firstId)
  {
    items := [];
    for i := 0 to |lines|
      invariant Mirrors(items, lines[..i], products, order, firstId)
    {
      var line := lines[i];
      items := items + [OrderItem(firstId + i, order, line.product, line.quantity, products[line.product].unitPrice)];
    }
    assert lines[..|lines|] == lines;
  }

  /** The value of an order: the sum of frozen unit price times quantity over its items. */
  function OrderTotal(items: seq<OrderItem>): Cents {
    if items == [] then 0
    else OrderTotal(items[..|items| - 1]) + items[|items| - 1].unitPrice * items[|items| - 1].quantity
  }

  /** An order's value equals the total its cart had at the moment the order was placed. */
  lemma {:induction false} OrderTotalMatchesCart(items: seq<OrderItem>, lines: seq<CartItem>, products: map<ProductId, Product>,
                                                 order: OrderId, firstId: OrderItemId)
    requires Priced(lines, products)
    requires Mirrors(items, lines, products, order, firstId)
    ensures OrderTotal(items) == Total(lines, products)
  {
    if lines != [] {
      var n := |lines|;
      assert forall x :: x in lines[..n - 1] ==> x in lines;
      OrderTotalMatchesCart(items[..n - 1], lines[..n - 1], products, order, firstId);
    }
  }

  /** A frozen unit price is a copy of a valid product's price, so it obeys the price validators. */
  lemma MirroredPricesValid(items: seq<OrderItem>, lines: seq<CartItem>, products: map<ProductId, Product>,
                            order: OrderId, firstId: OrderItemId)
    requires Priced(lines, products)
    requires forall p :: p in products ==> products[p].Valid()
    requires Mirrors(items, lines, products, order, firstId)
    ensures forall k :: 0 <= k < |items| ==> MinUnitPrice <= items[k].unitPrice <= MaxUnitPrice
  {
    forall k | 0 <= k < |items| ensures MinUnitPrice <= items[k].unitPrice <= MaxUnitPrice {
      assert lines[k] in lines;
    }
  }
}
