# Storefront: carts, orders and guarded deletes

A Dafny model of the part of the storefront REST API that has behaviour of its
own: adding lines to a cart, cart totals, turning a cart into an order, the
deletes that the catalog's referential rules guard, and the per-user customer
record and order list. The relational database behind the API is an in-memory
`Store` (`database.dfy`):

- products, collections, customers and orders are maps from id to row;
- carts are a set of ids;
- cart items and order items are sequences of rows in table order, so the
  loops over a query result have an order to follow;
- each table the model inserts into (cart items, customers, orders, order
  items) has a counter for the next id.

Prices are integer cents. A two-decimal `Decimal` is exact, so nothing is
lost. `Store.Valid()` collects the constraints the model assumes of every stored row:

- the product field validators: price from 1.00 to 9999.99, inventory at least 1;
- every foreign key resolves (PROTECT, SET_NULL and CASCADE are modelled where rows are deleted);
- one cart line per (cart, product) pair;
- one customer per user;
- every row id was issued by its counter, and order-item ids are unique.

Every operation of the store keeps `Valid()`.

Modules:

- `Models` holds the row datatypes, the referential rules and the store invariants.
- `Serializers` holds the validators, the cart-line upsert, the totals, and the loop that builds an order's items.
- `Database` holds the `Store` class with the row-changing operations.
- `Views` holds the request handlers.

Order placement is all or nothing. It either fails, leaving the store
untouched, or it does all of the following at once:

- creates one order for the user's customer;
- appends one order item per cart line, in the lines' order, copying product
  and quantity and freezing the product's current price;
- deletes the cart with its lines.

The order's value equals the cart's total at that moment. The cart total does
not depend on the order in which the query returns the lines.

Order placement looks the customer up with `Customer.objects.get`
(store/serializers.py:173-174), which fails when the user has no customer. The
model follows that code: placement does not create a missing customer. A missing customer is the error `NoSuchCustomer`, and the store is
left unchanged. Normally the customer exists, because a registration hook
creates it (store/signals.py:6-9).

## Model

| member | source | states |
|---|---|---|
| Models.ClearFeatured | store/models.py:14-15 | SET_NULL: the same collections remain, every collection that featured the deleted product has its featured product set to null and nothing else changed, and collections that featured another product are untouched |
| Models.WithoutCart | store/serializers.py:189 | deleting a cart removes exactly its lines (CASCADE), keeps every other line, and keeps the table well keyed |
| Models.WithoutProduct | store/views.py:31 | deleting a product removes exactly the cart lines of that product, keeps every other line, and keeps the table well keyed |
| Models.ProductCount | store/views.py:59 | the count of a collection's products is positive exactly when some product belongs to the collection |
| Models.OrderItemCount | store/views.py:29 | the count of a product's order items is positive exactly when some order item references the product, and is at most the number of order items |
| Models.CustomerOf | store/serializers.py:173-174 | the lookup of a user's customer finds a customer of that user, and finds none exactly when no customer belongs to the user; when each user has at most one customer, the lookup finds exactly that customer |
| Serializers.LineIndex | store/serializers.py:94-95 | the lookup by (cart, product) returns the first matching row, and finds nothing exactly when the cart has no line for the product |
| Serializers.Upsert | store/serializers.py:88-103 | an existing line gets the new quantity, overwritten and not added, with its id kept and no row added; otherwise exactly one line with the new id is appended; all other rows are unchanged; the cart then has a line for the product with the new quantity |
| Serializers.UpsertKeepsWellKeyed | store/serializers.py:93-101 | with a fresh id, an upsert keeps one line per (cart, product) and unique ids, so every line of the product in the cart carries the new quantity |
| Serializers.ItemIndex | store/views.py:88-89 | the lookup of a line by (cart, id) finds a row of that cart with that id, and finds nothing exactly when no such row exists |
| Serializers.QuantityUpdateKeepsWellKeyed | store/serializers.py:110-113 | changing only a line's quantity keeps the table well keyed |
| Serializers.LineTotal | store/serializers.py:72-73 | a line total is the product's price times the quantity, so for a valid product it lies between 1.00 and 9999.99 per unit |
| Serializers.CartTotal | store/serializers.py:121-125 | the running sum over the cart's lines equals the sum of the line totals, and an empty cart totals 0 |
| Serializers.TotalRemove | store/serializers.py:121-125 | taking any one line out of a cart takes exactly that line's total off the cart total |
| Serializers.TotalPermutation | store/serializers.py:123 | the cart total is the same for every order in which the lines are returned |
| Serializers.CartLines | store/serializers.py:170-171 | the cart's items are exactly the rows of the table that belong to the cart |
| Serializers.ValidateCart | store/serializers.py:158-163 | an unknown cart fails with "No cart with the given id.", an existing cart with no line fails with "The cart is empty.", and otherwise the cart passes and has a line |
| Serializers.BuildOrderItems | store/serializers.py:178-184 | the loop produces one order item per cart line, in order, each with a fresh id, the new order, the line's product and quantity, and the product's current price |
| Serializers.OrderTotalMatchesCart | store/serializers.py:180-183 | the order items built from a cart are worth exactly the cart's total at placement |
| Serializers.MirroredPricesValid | store/models.py:24-25 | a frozen unit price is a valid product price, between 1.00 and 9999.99 |
| Database.Store.constructor | store/models.py:24-28 | a store starts from tables that satisfy the field validators, the foreign keys and the uniqueness rules |
| Database.Store.AddCartItem | store/serializers.py:88-103 | an unknown product is rejected with the store unchanged; otherwise the cart-item table becomes the upsert of the line, under the next id when the line is new, and the line's id is returned; a new line for a missing cart is an integrity error; a known product added to an existing cart always succeeds; nothing else changes |
| Database.Store.UpdateCartItem | store/serializers.py:110-113 | only the quantity of the cart's line with that id changes; a line not in the cart is not found and the store is unchanged |
| Database.Store.SetQuantity | store/serializers.py:96-97 | the row keeps its place, id, cart and product and gets the new quantity; nothing else changes |
| Database.Store.AppendCartItem | store/serializers.py:100-101 | one line is appended under the next id and the counter advances; nothing else changes |
| Database.Store.SaveOrder | store/serializers.py:165-191 | without a customer for the user, the save fails and nothing changes; otherwise one new order of that customer is created, one order item per cart line is appended with the frozen price, and the cart and its lines are deleted; the new order takes the next order id, and the order-item counter advances by the number of lines; products, collections and customers never change |
| Database.Store.InsertOrder | store/serializers.py:176-187 | a new order under the next order id, and the mirrored order items appended after the existing ones |
| Database.Store.DeleteCart | store/serializers.py:189 | the cart and exactly its lines are deleted; nothing else changes |
| Database.Store.DeleteProduct | store/views.py:31 | deleting a product that an order item references is refused with nothing changed (PROTECT); otherwise the product is removed, featured references are cleared and its cart lines are deleted |
| Database.Store.RemoveProduct | store/views.py:31 | an unreferenced product is removed with its SET_NULL and CASCADE effects, and the store stays valid |
| Database.Store.DeleteCollection | store/views.py:61 | deleting a collection that still has a product is refused with nothing changed (PROTECT); otherwise exactly that collection is removed |
| Database.Store.GetOrCreateCustomer | store/views.py:120-121 | returns the user's existing customer with nothing changed, or creates exactly one customer under the next id; afterwards the user has exactly that customer |
| Database.PlacementKeepsOrdersValid | store/serializers.py:176-187 | adding an order of a known customer and its mirrored items keeps every order and order-item reference resolvable |
| Database.DeletionKeepsCartItemsValid | store/serializers.py:189 | deleting a cart together with its lines keeps every cart line's references valid |
| Database.ProductDeletionKeepsStoreValid | store/models.py:14-15 | removing a product that no order item references, with SET_NULL on featured products and CASCADE on cart lines, keeps the catalog, cart and order constraints |
| Views.DestroyProduct | store/views.py:27-32 | a missing product is not found; a product with order items is refused; in both cases nothing changes; otherwise the product is deleted with its effects |
| Views.DestroyCollection | store/views.py:58-62 | a missing collection is not found; a collection with products is refused; in both cases nothing changes; otherwise exactly the collection is removed |
| Views.Me | store/views.py:118-129 | returns the user's customer with nothing changed when there is one; otherwise creates exactly one customer for the user under the next id |
| Views.MeTwice | store/views.py:120-121 | two calls return the same customer and add at most that one customer |
| Views.CreateOrder | store/views.py:135-141 | validation comes first: unknown and empty carts fail with the store unchanged; a valid cart without a customer fails with the store unchanged; placement succeeds exactly when the cart is valid and the user has a customer, and then its items mirror the non-empty cart, and its value equals the cart total |
| Views.ListOrders | store/views.py:143-151 | staff see every order and nothing changes; anyone else sees exactly the orders whose customer belongs to them, and the store is unchanged when they already have a customer, while otherwise exactly one customer is added under the next id |
| Views.OwnOrdersDisjoint | store/views.py:151 | no order appears in the lists of two different customers |
| Views.OwnOrdersAfterPlacement | store/views.py:151 | a newly placed order joins its customer's list and no other customer's |

## Left out

- Promotions, images, reviews, and the create and update endpoints of products and collections are not modelled: they pass requests straight to the ORM.
- `ProductSerializer.calculate_tax` is not modelled, because it multiplies by a `Decimal` built from a binary float. The same goes for `Promotion.discount`, which is a float field.
- The `price` serializer field, declared with four decimal places over `unit_price`, is not modelled. Only the model field's two-decimal constraint is.
- The 1.00 minimum price is assumed of every stored product, but the product API does not enforce it. The product endpoints write `unit_price` only through the declared `price` field (store/serializers.py:35-36). That field has no minimum, and the model field's `MinValueValidator(1)` is not attached to it. A price below 1.00 can therefore be stored. The price bounds of `Serializers.LineTotal` and `Serializers.MirroredPricesValid` hold only for stores that satisfy the assumption.
- Transactions and locking are not modelled. Each store method runs to completion alone, so concurrent placements of one cart are outside the model.
- HTTP is not modelled: status codes and `Response` objects, permission classes, routing, and serializer field lists. Errors become an `Error` value, and `Message` gives its text.
- The `print` of the order items during placement is not modelled. It is console output only.
- The registration hook that creates a customer for each new user is not modelled. It only explains why placement normally finds a customer.
- Timestamps (`placed_at`, `last_update`), `payment_status`, and the unused text fields (slug, description, phone, birth date, membership) are not modelled. The PUT branch of `me` only edits those customer fields.
- Creating carts, reading carts, and the DELETE endpoints of carts and cart items are not modelled as views. The cascade used when a cart goes away is modelled, as `Store.DeleteCart`.
- The declarations of Cart, CartItem, Customer, Order and OrderItem are not modelled from source: their fields are inferred from their use in store/serializers.py and store/views.py. The following are assumed of them: a cart holds at most one line per product, a user has at most one customer, and a cart's lines are deleted with the cart (CASCADE). A cart-item quantity is taken to be a positive integer, and a cart item is taken to be deleted with its product (CASCADE). OrderItem's product reference is taken to be PROTECT.
- Query results come back in table order. The store has no other ordering, and `Serializers.TotalPermutation` shows that the total does not depend on it.
- Cart ids are UUIDs in the source. The model treats them as opaque naturals with equality.
- Serializers.LineTotal: states bounds for valid products, not the product of price and quantity, which its body computes.
- Views.Me: the caller is always a signed-in user with an id. The GET of `me` is open to anonymous callers (store/views.py:113-116). For them, `get_or_create` runs with no user id, which either fails on the database or makes every anonymous caller share one customer. The model does not capture that caller.
