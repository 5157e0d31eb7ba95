/** The products table and the restock-orders table, and the controller actions that change
    them (ProductController create/update/destroy, ProductRestockController create/update/
    destroy) or read restock totals from them (show, restockOrderByProductId).

    A product's `quantity` is a running total. The ledger is *balanced* when every product's
    quantity equals the sum of the quantities of its restock orders; `Drift` measures how far a
    product is off. Each action is atomic: it applies its whole effect or returns an error and
    changes nothing. */
module Ledger {
  import opened Schema

  datatype Error =
    | Invalid    // validation failed (HTTP 400 or 422)
    | NotFound   // no row with that id (HTTP 404)
    | Failed     // the transaction aborted (HTTP 500)

  datatype Result<T> = Ok(value: T) | Err(error: Error)

  datatype Outcome = Done | Refused(error: Error)

  // ---------------------------------------------------------------------------------------
  // Restock totals

  /** The quantity one order contributes to product p's restock total. */
  function Share(o: RestockOrder, p: ProductId): int {
    if o.productId == p then o.quantity else 0
  }

  /** Searching upward from i, below a known member x, finds the least key. */
  lemma {:induction false} LeastFrom(keys: set<nat>, i: nat, x: nat)
    requires x in keys && i <= x
    requires forall j | j in keys :: i <= j
    ensures exists k :: k in keys && forall j | j in keys :: k <= j
    decreases x - i
  {
    if i !in keys {
      LeastFrom(keys, i + 1, x);
    }
  }

  function LeastKey(keys: set<nat>): (k: nat)
    requires keys != {}
    ensures k in keys && forall j | j in keys :: k <= j
  {
    var x :| x in keys;
    LeastFrom(keys, 0, x);
    var k :| k in keys && forall j | j in keys :: k <= j;
    k
  }

  /** `ProductRestockOrder::where('product_id', p)->sum('quantity')`: the quantities of p's
      orders added up, taken in key order. Its properties are the lemmas below. */
  function Restocked(orders: map<OrderId, RestockOrder>, p: ProductId): int
    decreases |orders|
  {
    if orders == map[] then 0
    else
      var k := LeastKey(orders.Keys);
      assert (orders - {k}).Keys == orders.Keys - {k};
      Share(orders[k], p) + Restocked(orders - {k}, p)
  }

  /** The total does not depend on the order of summation: any one order can be taken out. */
  lemma {:induction false} RestockedRemove(orders: map<OrderId, RestockOrder>, k: OrderId, p: ProductId)
    requires k in orders
    ensures Restocked(orders, p) == Share(orders[k], p) + Restocked(orders - {k}, p)
    decreases |orders|
  {
    var m := LeastKey(orders.Keys);
    if m != k {
      assert (orders - {m}).Keys == orders.Keys - {m};
      RestockedRemove(orders - {m}, k, p);
      var without := orders - {k};
      assert without.Keys == orders.Keys - {k};
      assert m in without.Keys;
      assert LeastKey(without.Keys) in orders.Keys;
      assert without - {m} == orders - {m} - {k};
    }
  }

  lemma RestockedInsert(orders: map<OrderId, RestockOrder>, k: OrderId, o: RestockOrder, p: ProductId)
    requires k !in orders
    ensures Restocked(orders[k := o], p) == Restocked(orders, p) + Share(o, p)
  {
    RestockedRemove(orders[k := o], k, p);
    assert orders[k := o] - {k} == orders;
  }

  lemma RestockedReplace(orders: map<OrderId, RestockOrder>, k: OrderId, o: RestockOrder, p: ProductId)
    requires k in orders
    ensures Restocked(orders[k := o], p) == Restocked(orders, p) - Share(orders[k], p) + Share(o, p)
  {
    RestockedRemove(orders, k, p);
    RestockedRemove(orders[k := o], k, p);
    assert orders[k := o] - {k} == orders - {k};
  }

  /** A product no order refers to has restocked nothing. */
  lemma {:induction false} RestockedUnreferenced(orders: map<OrderId, RestockOrder>, p: ProductId)
    requires forall k | k in orders :: orders[k].productId != p
    ensures Restocked(orders, p) == 0
    decreases |orders|
  {
    if orders != map[] {
      var k := LeastKey(orders.Keys);
      assert (orders - {k}).Keys == orders.Keys - {k};
      RestockedUnreferenced(orders - {k}, p);
    }
  }

  predicate PositiveQuantities(orders: map<OrderId, RestockOrder>) {
    forall k | k in orders :: orders[k].quantity >= 1
  }

  /** With positive order quantities, a product's total is at least any one of its orders. */
  lemma {:induction false} RestockedCoversOrder(orders: map<OrderId, RestockOrder>, k: OrderId)
    requires PositiveQuantities(orders) && k in orders
    ensures Restocked(orders, orders[k].productId) >= orders[k].quantity
  {
    RestockedRemove(orders, k, orders[k].productId);
    RestockedNonNegative(orders - {k}, orders[k].productId);
  }

  lemma {:induction false} RestockedNonNegative(orders: map<OrderId, RestockOrder>, p: ProductId)
    requires PositiveQuantities(orders)
    ensures Restocked(orders, p) >= 0
    decreases |orders|
  {
    if orders != map[] {
      var k := LeastKey(orders.Keys);
      assert (orders - {k}).Keys == orders.Keys - {k};
      RestockedNonNegative(orders - {k}, p);
    }
  }

  // ---------------------------------------------------------------------------------------
  // The two tables as a value, and the effect of each action on them

  datatype Db = Db(products: map<ProductId, Product>, orders: map<OrderId, RestockOrder>)

  /** How far product p's running quantity is from the sum of its restock orders. */
  function Drift(db: Db, p: ProductId): int
    requires p in db.products
  {
    db.products[p].quantity - Restocked(db.orders, p)
  }

  /** Every product's quantity equals the sum of its restock orders' quantities. */
  predicate Balanced(db: Db) {
    forall p | p in db.products :: db.products[p].quantity == Restocked(db.orders, p)
  }

  /** ProductRestockController.create: the order row is inserted and its quantity is added to
      its product. */
  function RestockAdded(db: Db, id: OrderId, o: RestockOrder): Db
    requires o.productId in db.products
  {
    var product := db.products[o.productId];
    Db(db.products[o.productId := product.(quantity := product.quantity + o.quantity)],
       db.orders[id := o])
  }

  /** ProductRestockController.update as written: the old quantity is taken off and the new one
      put on the product the order belonged to before the update, whatever `product_id` the
      order is given. */
  function RestockChanged(db: Db, id: OrderId, o: RestockOrder): (after: Db)
    requires id in db.orders && db.orders[id].productId in db.products
    ensures after.orders == db.orders[id := o] && after.products.Keys == db.products.Keys
    ensures var was := db.orders[id];
      after.products[was.productId].quantity == db.products[was.productId].quantity - was.quantity + o.quantity
    ensures forall q | q in db.products && q != db.orders[id].productId :: after.products[q] == db.products[q]
  {
    var was := db.orders[id];
    var product := db.products[was.productId];
    Db(db.products[was.productId := product.(quantity := product.quantity - was.quantity + o.quantity)],
       db.orders[id := o])
  }

  /** The update as evidently intended: the old quantity leaves the old product and the new
      quantity lands on the order's new product. */
  function RestockRebalanced(db: Db, id: OrderId, o: RestockOrder): Db
    requires id in db.orders && db.orders[id].productId in db.products && o.productId in db.products
  {
    var was := db.orders[id];
    var lowered := db.products[was.productId :=
      db.products[was.productId].(quantity := db.products[was.productId].quantity - was.quantity)];
    Db(lowered[o.productId := lowered[o.productId].(quantity := lowered[o.productId].quantity + o.quantity)],
       db.orders[id := o])
  }

  /** ProductRestockController.destroy: the order's quantity is taken off its product and the
      order row is deleted. */
  function RestockRemoved(db: Db, id: OrderId): Db
    requires id in db.orders && db.orders[id].productId in db.products
  {
    var was := db.orders[id];
    var product := db.products[was.productId];
    Db(db.products[was.productId := product.(quantity := product.quantity - was.quantity)],
       db.orders - {id})
  }

  /** ProductController.create: the product row and one restock order logging its initial
      quantity. */
  function ProductAdded(db: Db, pid: ProductId, product: Product, id: OrderId, userId: UserId): Db {
    Db(db.products[pid := product],
       db.orders[id := RestockOrder(pid, product.quantity, userId, product.createdAt)])
  }

  /** The optional fields of a product update request. */
  datatype ProductPatch = ProductPatch(
    categoryId: Option<CategoryId>,
    originalPrice: Option<int>,
    name: Option<string>,
    quantity: Option<int>)

  /** The product with every field the patch carries set to the patch's value. */
  function Overlay(p: Product, patch: ProductPatch): Product {
    p.(categoryId := if patch.categoryId.Some? then patch.categoryId.value else p.categoryId,
       originalPrice := if patch.originalPrice.Some? then patch.originalPrice.value else p.originalPrice,
       name := if patch.name.Some? then patch.name.value else p.name,
       quantity := if patch.quantity.Some? then patch.quantity.value else p.quantity)
  }

  /** Some field the patch carries differs from the stored one, so `$updateData` is not empty. */
  predicate Differs(p: Product, patch: ProductPatch) {
    || (patch.categoryId.Some? && patch.categoryId.value != p.categoryId)
    || (patch.originalPrice.Some? && patch.originalPrice.value != p.originalPrice)
    || (patch.name.Some? && patch.name.value != p.name)
    || (patch.quantity.Some? && patch.quantity.value != p.quantity)
  }

  /** ProductController.update: the product row with the patch laid over it. */
  function ProductPatched(db: Db, pid: ProductId, patch: ProductPatch): Db
    requires pid in db.products
  {
    Db(db.products[pid := Overlay(db.products[pid], patch)], db.orders)
  }

  /** ProductController.destroy: the product row is deleted; its restock orders stay. */
  function ProductRemoved(db: Db, pid: ProductId): Db {
    Db(db.products - {pid}, db.orders)
  }

  // ---------------------------------------------------------------------------------------
  // Which actions keep the ledger balanced, and which break it

  lemma RestockAddedKeepsDrift(db: Db, id: OrderId, o: RestockOrder)
    requires id !in db.orders && o.productId in db.products
    ensures var after := RestockAdded(db, id, o);
      after.products.Keys == db.products.Keys &&
      forall p | p in db.products :: Drift(after, p) == Drift(db, p)
  {
    forall p | p in db.products {
      RestockedInsert(db.orders, id, o, p);
    }
  }

  lemma RestockAddedKeepsBalance(db: Db, id: OrderId, o: RestockOrder)
    requires Balanced(db) && id !in db.orders && o.productId in db.products
    ensures Balanced(RestockAdded(db, id, o))
  {
    RestockAddedKeepsDrift(db, id, o);
  }

  /** An update that keeps the order on its product moves that product's quantity and its
      restock total by the same amount. */
  lemma RestockChangedInPlaceKeepsDrift(db: Db, id: OrderId, o: RestockOrder)
    requires id in db.orders && db.orders[id].productId in db.products
    requires o.productId == db.orders[id].productId
    ensures var after := RestockChanged(db, id, o);
      after.products.Keys == db.products.Keys &&
      forall p | p in db.products :: Drift(after, p) == Drift(db, p)
  {
    forall p | p in db.products {
      RestockedReplace(db.orders, id, o, p);
    }
  }

  lemma RestockChangedInPlaceKeepsBalance(db: Db, id: OrderId, o: RestockOrder)
    requires Balanced(db) && id in db.orders && db.orders[id].productId in db.products
    requires o.productId == db.orders[id].productId
    ensures Balanced(RestockChanged(db, id, o))
  {
    RestockChangedInPlaceKeepsDrift(db, id, o);
  }

  /** An update that moves the order to another product leaves the old product o.quantity
      above its restock total and the new product o.quantity below it. */
  lemma RestockMovedDrifts(db: Db, id: OrderId, o: RestockOrder)
    requires id in db.orders && db.orders[id].productId in db.products
    requires o.productId in db.products && o.productId != db.orders[id].productId
    ensures var after := RestockChanged(db, id, o);
      && Drift(after, db.orders[id].productId) == Drift(db, db.orders[id].productId) + o.quantity
      && Drift(after, o.productId) == Drift(db, o.productId) - o.quantity
  {
    RestockedReplace(db.orders, id, o, db.orders[id].productId);
    RestockedReplace(db.orders, id, o, o.productId);
  }

  /** So, starting balanced, moving an order of positive quantity unbalances the ledger. */
  lemma RestockMovedBreaksBalance(db: Db, id: OrderId, o: RestockOrder)
    requires Balanced(db) && id in db.orders && db.orders[id].productId in db.products
    requires o.productId in db.products && o.productId != db.orders[id].productId
    requires o.quantity >= 1
    ensures !Balanced(RestockChanged(db, id, o))
  {
    RestockMovedDrifts(db, id, o);
  }

  lemma RestockRebalancedKeepsBalance(db: Db, id: OrderId, o: RestockOrder)
    requires Balanced(db) && id in db.orders && db.orders[id].productId in db.products
    requires o.productId in db.products
    ensures Balanced(RestockRebalanced(db, id, o))
  {
    var after := RestockRebalanced(db, id, o);
    forall p | p in after.products ensures after.products[p].quantity == Restocked(after.orders, p) {
      RestockedReplace(db.orders, id, o, p);
    }
  }

  /** When the order stays on its product, the corrected update and the one as written agree. */
  lemma RebalancedAgreesInPlace(db: Db, id: OrderId, o: RestockOrder)
    requires id in db.orders && db.orders[id].productId in db.products
    requires o.productId == db.orders[id].productId
    ensures RestockRebalanced(db, id, o) == RestockChanged(db, id, o)
  {
  }

  lemma RestockRemovedKeepsBalance(db: Db, id: OrderId)
    requires Balanced(db) && id in db.orders && db.orders[id].productId in db.products
    ensures Balanced(RestockRemoved(db, id))
  {
    var after := RestockRemoved(db, id);
    forall p | p in after.products ensures after.products[p].quantity == Restocked(after.orders, p) {
      RestockedRemove(db.orders, id, p);
    }
  }

  /** A new product whose id no order refers to yet starts balanced, and nothing else moves. */
  lemma ProductAddedKeepsBalance(db: Db, pid: ProductId, product: Product, id: OrderId, userId: UserId)
    requires Balanced(db) && pid !in db.products && id !in db.orders
    requires forall k | k in db.orders :: db.orders[k].productId != pid
    ensures Balanced(ProductAdded(db, pid, product, id, userId))
  {
    var o := RestockOrder(pid, product.quantity, userId, product.createdAt);
    var after := ProductAdded(db, pid, product, id, userId);
    forall p | p in after.products ensures after.products[p].quantity == Restocked(after.orders, p) {
      RestockedInsert(db.orders, id, o, p);
      if p == pid {
        RestockedUnreferenced(db.orders, pid);
      }
    }
  }

  /** Setting a product's quantity directly moves it off its restock total by the change. */
  lemma QuantityPatchDrifts(db: Db, pid: ProductId, patch: ProductPatch)
    requires pid in db.products && patch.quantity.Some?
    ensures Drift(ProductPatched(db, pid, patch), pid)
         == Drift(db, pid) + patch.quantity.value - db.products[pid].quantity
  {
  }

  lemma QuantityPatchBreaksBalance(db: Db, pid: ProductId, patch: ProductPatch)
    requires Balanced(db) && pid in db.products
    requires patch.quantity.Some? && patch.quantity.value != db.products[pid].quantity
    ensures !Balanced(ProductPatched(db, pid, patch))
  {
    QuantityPatchDrifts(db, pid, patch);
  }

  /** Without a quantity, a patch leaves the ledger as balanced as it was. */
  lemma PatchWithoutQuantityKeepsBalance(db: Db, pid: ProductId, patch: ProductPatch)
    requires Balanced(db) && pid in db.products && patch.quantity.None?
    ensures Balanced(ProductPatched(db, pid, patch))
  {
  }

  /** `$updateData`: the fields of the patch that differ from the stored product. Writing only
      them has the effect of laying the whole patch over, and there are none exactly when
      nothing differs. */
  function Changes(p: Product, patch: ProductPatch): (c: ProductPatch)
    ensures c == ProductPatch(None, None, None, None) <==> !Differs(p, patch)
    ensures Overlay(p, c) == Overlay(p, patch)
  {
    ProductPatch(
      if patch.categoryId.Some? && patch.categoryId.value != p.categoryId then patch.categoryId else None,
      if patch.originalPrice.Some? && patch.originalPrice.value != p.originalPrice then patch.originalPrice else None,
      if patch.name.Some? && patch.name.value != p.name then patch.name else None,
      if patch.quantity.Some? && patch.quantity.value != p.quantity then patch.quantity else None)
  }

  /** A patch changes the product exactly when one of its fields differs from the stored one. */
  lemma NoDifferenceNoChange(p: Product, patch: ProductPatch)
    ensures !Differs(p, patch) <==> Overlay(p, patch) == p
  {
  }

  // ---------------------------------------------------------------------------------------
  // Reads

  /** ProductController.show. */
  function ShowProduct(db: Db, id: ProductId): (r: Result<Product>)
    ensures r.Ok? <==> id in db.products
    ensures r.Ok? ==> r.value == db.products[id]
    ensures r.Err? ==> r.error == NotFound
  {
    if id in db.products then Ok(db.products[id]) else Err(NotFound)
  }

  datatype RestockSummary = RestockSummary(
    order: RestockOrder,
    productName: string,
    totalRestocked: int,
    totalStock: int)

  /** ProductRestockController.show: the order, its product's restock total and its product's
      stock. A missing product makes the action fail. */
  function ShowRestockOrder(db: Db, id: OrderId): (r: Result<RestockSummary>)
    ensures r.Ok? <==> id in db.orders && db.orders[id].productId in db.products
    ensures r.Err? ==> r.error == (if id in db.orders then Failed else NotFound)
    ensures r.Ok? ==> r.value.order == db.orders[id]
    ensures r.Ok? ==> r.value.totalStock == db.products[db.orders[id].productId].quantity
    ensures r.Ok? ==> r.value.productName == db.products[db.orders[id].productId].name
    ensures r.Ok? ==> r.value.totalRestocked == Restocked(db.orders, db.orders[id].productId)
    ensures r.Ok? && PositiveQuantities(db.orders) ==> r.value.totalRestocked >= r.value.order.quantity
    ensures r.Ok? && Balanced(db) ==> r.value.totalRestocked == r.value.totalStock
  {
    if id !in db.orders then Err(NotFound)
    else
      var o := db.orders[id];
      if o.productId !in db.products then Err(Failed)
      else
        var product := db.products[o.productId];
        assert PositiveQuantities(db.orders) ==> Restocked(db.orders, o.productId) >= o.quantity by {
          if PositiveQuantities(db.orders) {
            RestockedCoversOrder(db.orders, id);
          }
        }
        Ok(RestockSummary(o, product.name, Restocked(db.orders, o.productId), product.quantity))
  }

  datatype ProductStock = ProductStock(
    productName: string,
    inStock: int,
    totalRestocked: int,
    orderIds: set<OrderId>)

  /** ProductRestockController.restockOrderByProductId: the product's stock, its restock total
      and its restock orders. */
  function RestockOrdersOfProduct(db: Db, pid: ProductId): (r: Result<ProductStock>)
    ensures r.Ok? <==> pid in db.products
    ensures r.Err? ==> r.error == NotFound
    ensures r.Ok? ==> r.value.inStock == db.products[pid].quantity
    ensures r.Ok? ==> forall k :: k in r.value.orderIds <==> k in db.orders && db.orders[k].productId == pid
    ensures r.Ok? ==> r.value.productName == db.products[pid].name
    ensures r.Ok? ==> r.value.totalRestocked == Restocked(db.orders, pid)
    ensures r.Ok? && r.value.orderIds == {} ==> r.value.totalRestocked == 0
    ensures r.Ok? && Balanced(db) ==> r.value.totalRestocked == r.value.inStock
  {
    if pid !in db.products then Err(NotFound)
    else
      var ids := set k | k in db.orders && db.orders[k].productId == pid;
      assert forall k | k in db.orders && db.orders[k].productId == pid :: k in ids;
      assert ids == {} ==> Restocked(db.orders, pid) == 0 by {
        if ids == {} {
          RestockedUnreferenced(db.orders, pid);
        }
      }
      Ok(ProductStock(db.products[pid].name, db.products[pid].quantity, Restocked(db.orders, pid), ids))
  }

  // ---------------------------------------------------------------------------------------
  // Validation

  /** The `exists:` and `min:1` rules of a restock order request. */
  predicate RestockRequestValid(users: set<UserId>, products: map<ProductId, Product>,
                                userId: UserId, productId: ProductId, quantity: int) {
    userId in users && productId in products && quantity >= 1
  }

  predicate NameTaken(products: map<ProductId, Product>, name: string) {
    exists p | p in products :: products[p].name == name
  }

  predicate NameHeldByOther(products: map<ProductId, Product>, name: string, id: ProductId) {
    exists p | p in products && p != id :: products[p].name == name
  }

  predicate UniqueNames(products: map<ProductId, Product>) {
    forall p, q | p in products && q in products && products[p].name == products[q].name :: p == q
  }

  /** Setting one product's quantity keeps the product ids and the names unique. */
  lemma RequantifiedKeepsNames(products: map<ProductId, Product>, pid: ProductId, quantity: int)
    requires UniqueNames(products) && pid in products
    ensures var after := products[pid := products[pid].(quantity := quantity)];
      after.Keys == products.Keys && UniqueNames(after)
  {
    var after := products[pid := products[pid].(quantity := quantity)];
    assert forall p | p in after :: after[p].name == products[p].name;
  }

  /** The corrected update keeps every product id and product name, and only replaces the
      order it updates. */
  lemma RebalancedShape(db: Db, id: OrderId, o: RestockOrder)
    requires id in db.orders && db.orders[id].productId in db.products && o.productId in db.products
    requires UniqueNames(db.products)
    ensures var after := RestockRebalanced(db, id, o);
      && after.products.Keys == db.products.Keys && UniqueNames(after.products)
      && after.orders == db.orders[id := o]
  {
    var was := db.orders[id];
    RequantifiedKeepsNames(db.products, was.productId, db.products[was.productId].quantity - was.quantity);
    var lowered := db.products[was.productId :=
      db.products[was.productId].(quantity := db.products[was.productId].quantity - was.quantity)];
    RequantifiedKeepsNames(lowered, o.productId, lowered[o.productId].quantity + o.quantity);
  }

  /** Adding a restock order keeps every product id and name, and inserts just that order. */
  lemma AddedShape(db: Db, id: OrderId, o: RestockOrder)
    requires o.productId in db.products && UniqueNames(db.products)
    ensures var after := RestockAdded(db, id, o);
      && after.products.Keys == db.products.Keys && UniqueNames(after.products)
      && after.orders == db.orders[id := o]
  {
    RequantifiedKeepsNames(db.products, o.productId, db.products[o.productId].quantity + o.quantity);
  }

  /** Removing a restock order keeps every product id and name, and deletes just that order. */
  lemma RemovedShape(db: Db, id: OrderId)
    requires id in db.orders && db.orders[id].productId in db.products && UniqueNames(db.products)
    ensures var after := RestockRemoved(db, id);
      && after.products.Keys == db.products.Keys && UniqueNames(after.products)
      && after.orders == db.orders - {id}
  {
    var was := db.orders[id];
    RequantifiedKeepsNames(db.products, was.productId, db.products[was.productId].quantity - was.quantity);
  }

  /** A patch whose name no other product holds keeps the product ids and the names unique. */
  lemma PatchedKeepsNames(products: map<ProductId, Product>, pid: ProductId, patch: ProductPatch)
    requires UniqueNames(products) && pid in products
    requires patch.name.Some? ==> !NameHeldByOther(products, patch.name.value, pid)
    ensures var after := products[pid := Overlay(products[pid], patch)];
      after.Keys == products.Keys && UniqueNames(after)
  {
    var after := products[pid := Overlay(products[pid], patch)];
    assert forall p | p in after && p != pid :: after[p] == products[p];
  }

  /** The rules of a product create request. */
  predicate ProductRequestValid(users: set<UserId>, categories: map<CategoryId, Category>,
                                products: map<ProductId, Product>, categoryId: CategoryId,
                                name: string, quantity: int, userId: UserId) {
    && categoryId in categories
    && name != "" && |name| <= 255 && !NameTaken(products, name)
    && quantity >= 1
    && userId in users
  }

  /** The rules of a product update request for product `id`. */
  predicate PatchValid(categories: map<CategoryId, Category>, products: map<ProductId, Product>,
                       id: ProductId, patch: ProductPatch) {
    && (patch.categoryId.Some? ==> patch.categoryId.value in categories)
    && (patch.name.Some? ==> |patch.name.value| <= 255 && !NameHeldByOther(products, patch.name.value, id))
    && (patch.quantity.Some? ==> patch.quantity.value >= 1)
  }

  /** A product may keep its own name on update. */
  lemma OwnNameAccepted(categories: map<CategoryId, Category>, products: map<ProductId, Product>,
                        id: ProductId, patch: ProductPatch)
    requires UniqueNames(products) && id in products
    requires patch.categoryId.None? && patch.quantity.None?
    requires patch.name == Some(products[id].name) && |products[id].name| <= 255
    ensures PatchValid(categories, products, id, patch)
  {
  }

  /** A name another product holds is refused on update. */
  lemma OthersNameRefused(categories: map<CategoryId, Category>, products: map<ProductId, Product>,
                          id: ProductId, other: ProductId, patch: ProductPatch)
    requires other in products && other != id
    requires patch.name == Some(products[other].name)
    ensures !PatchValid(categories, products, id, patch)
  {
  }

  // ---------------------------------------------------------------------------------------
  // The database

  class Inventory {
    var users: set<UserId>
    var categories: map<CategoryId, Category>
    var products: map<ProductId, Product>
    var orders: map<OrderId, RestockOrder>
    var nextProductId: ProductId   // the auto-increment counter of `products`
    var nextOrderId: OrderId       // the auto-increment counter of `product_restock_orders`

    ghost predicate Valid()
      reads this
    {
      && (forall p | p in products :: p < nextProductId)
      && (forall k | k in orders :: k < nextOrderId && orders[k].productId < nextProductId)
      && PositiveQuantities(orders)
      && UniqueNames(products)
    }

    function State(): Db
      reads this
    {
      Db(products, orders)
    }

    constructor (users: set<UserId>, categories: map<CategoryId, Category>)
      ensures Valid()
      ensures this.users == users && this.categories == categories
      ensures products == map[] && orders == map[]
    {
      this.users := users;
      this.categories := categories;
      products := map[];
      orders := map[];
      nextProductId := 0;
      nextOrderId := 0;
    }

    /** ProductController.create: insert the product, then log its initial quantity as a
        restock order. */
    method CreateProduct(categoryId: CategoryId, name: string, originalPrice: int,
                         quantity: int, userId: UserId, now: Timestamp)
      returns (r: Result<ProductId>)
      requires Valid()
      modifies this`products, this`orders, this`nextProductId, this`nextOrderId
      ensures Valid()
      ensures r.Err? <==> !ProductRequestValid(users, categories, old(products), categoryId, name, quantity, userId)
      ensures r.Err? ==> r.error == Invalid && unchanged(this)
      ensures r.Ok? ==> (r.value !in old(products) &&
        State() == ProductAdded(old(State()), r.value,
          Product(categoryId, name, originalPrice, quantity, now), old(nextOrderId), userId))
      ensures old(Balanced(State())) ==> Balanced(State())
    {
      if !ProductRequestValid(users, categories, products, categoryId, name, quantity, userId) {
        return Err(Invalid);
      }
      ghost var before := State();
      var pid := nextProductId;
      var product := Product(categoryId, name, originalPrice, quantity, now);
      products := products[pid := product];
      nextProductId := nextProductId + 1;
      var id := nextOrderId;
      orders := orders[id := RestockOrder(pid, quantity, userId, now)];
      nextOrderId := nextOrderId + 1;
      if Balanced(before) {
        ProductAddedKeepsBalance(before, pid, product, id, userId);
      }
      r := Ok(pid);
    }

    /** ProductController.update: validate, find, collect the fields that differ into
        `$updateData`, and write them only if there are any. */
    method UpdateProduct(id: ProductId, patch: ProductPatch) returns (r: Result<Product>, written: bool)
      requires Valid()
      modifies this`products
      ensures Valid()
      ensures r == Err(Invalid) <==> !PatchValid(categories, old(products), id, patch)
      ensures r == Err(NotFound) <==> PatchValid(categories, old(products), id, patch) && id !in old(products)
      ensures r.Ok? <==> PatchValid(categories, old(products), id, patch) && id in old(products)
      ensures r.Err? ==> unchanged(this) && !written
      ensures r.Ok? ==> (id in old(products) &&
        State() == ProductPatched(old(State()), id, patch) && r.value == products[id])
      ensures written <==> r.Ok? && Differs(old(products)[id], patch)
      ensures !written ==> products == old(products)
    {
      if !PatchValid(categories, products, id, patch) {
        return Err(Invalid), false;
      }
      if id !in products {
        return Err(NotFound), false;
      }
      var product := products[id];
      var updateData := ProductPatch(None, None, None, None);
      if patch.categoryId.Some? && patch.categoryId.value != product.categoryId {
        updateData := updateData.(categoryId := patch.categoryId);
      }
      if patch.originalPrice.Some? && patch.originalPrice.value != product.originalPrice {
        updateData := updateData.(originalPrice := patch.originalPrice);
      }
      if patch.name.Some? && patch.name.value != product.name {
        updateData := updateData.(name := patch.name);
      }
      if patch.quantity.Some? && patch.quantity.value != product.quantity {
        updateData := updateData.(quantity := patch.quantity);
      }
      assert updateData == Changes(product, patch);
      written := updateData != ProductPatch(None, None, None, None);
      if written {
        PatchedKeepsNames(products, id, updateData);
        product := Overlay(product, updateData);
        products := products[id := product];
      }
      NoDifferenceNoChange(old(products)[id], patch);
      r := Ok(product);
    }

    /** ProductController.destroy. */
    method DestroyProduct(id: ProductId) returns (r: Outcome)
      requires Valid()
      modifies this`products
      ensures Valid()
      ensures r.Refused? <==> id !in old(products)
      ensures r.Refused? ==> r.error == NotFound && unchanged(this)
      ensures r.Done? ==> State() == ProductRemoved(old(State()), id)
      ensures old(Balanced(State())) ==> Balanced(State())
    {
      if id !in products {
        return Refused(NotFound);
      }
      products := products - {id};
      r := Done;
    }

    /** ProductRestockController.create: insert the order, then add its quantity to the
        product. */
    method CreateRestockOrder(userId: UserId, productId: ProductId, quantity: int, now: Timestamp)
      returns (r: Result<OrderId>)
      requires Valid()
      modifies this`products, this`orders, this`nextOrderId
      ensures Valid()
      ensures r.Err? <==> !RestockRequestValid(users, old(products), userId, productId, quantity)
      ensures r.Err? ==> r.error == Invalid && unchanged(this)
      ensures r.Ok? ==> (r.value !in old(orders) &&
        State() == RestockAdded(old(State()), r.value, RestockOrder(productId, quantity, userId, now)))
      ensures old(Balanced(State())) ==> Balanced(State())
    {
      if !RestockRequestValid(users, products, userId, productId, quantity) {
        return Err(Invalid);
      }
      ghost var before := State();
      var id := nextOrderId;
      var order := RestockOrder(productId, quantity, userId, now);
      var after := RestockAdded(State(), id, order);
      AddedShape(before, id, order);
      orders := after.orders;
      nextOrderId := nextOrderId + 1;
      products := after.products;
      if Balanced(before) {
        RestockAddedKeepsBalance(before, id, order);
      }
      r := Ok(id);
    }

    /** ProductRestockController.update: validate, find the order, subtract its old quantity
        from its product, overwrite the order from the request, and add the new quantity to the
        order's product, which is the one the request names (`RestockChanged` is the
        controller's version, which adds it to the old product). */
    method UpdateRestockOrder(id: OrderId, userId: UserId, productId: ProductId, quantity: int)
      returns (r: Result<RestockOrder>)
      requires Valid()
      modifies this`products, this`orders
      ensures Valid()
      ensures r == Err(Invalid) <==> !RestockRequestValid(users, old(products), userId, productId, quantity)
      ensures r == Err(NotFound) <==>
        RestockRequestValid(users, old(products), userId, productId, quantity) && id !in old(orders)
      ensures r == Err(Failed) <==>
        (RestockRequestValid(users, old(products), userId, productId, quantity) &&
         id in old(orders) && old(orders)[id].productId !in old(products))
      ensures r.Ok? <==> (RestockRequestValid(users, old(products), userId, productId, quantity) &&
        id in old(orders) && old(orders)[id].productId in old(products))
      ensures r.Err? ==> unchanged(this)
      ensures r.Ok? ==> (id in old(orders) && old(orders)[id].productId in old(products) &&
        r.value == RestockOrder(productId, quantity, userId, old(orders)[id].createdAt) &&
        State() == RestockRebalanced(old(State()), id, r.value))
      ensures old(Balanced(State())) ==> Balanced(State())
    {
      if !RestockRequestValid(users, products, userId, productId, quantity) {
        return Err(Invalid);
      }
      if id !in orders {
        return Err(NotFound);
      }
      var order := orders[id];
      if order.productId !in products {
        return Err(Failed);
      }
      ghost var before := State();
      var updated := order.(productId := productId, quantity := quantity, userId := userId);
      var after := RestockRebalanced(State(), id, updated);
      RebalancedShape(before, id, updated);
      products := after.products;
      orders := after.orders;
      if Balanced(before) {
        RestockRebalancedKeepsBalance(before, id, updated);
      }
      r := Ok(updated);
    }

    /** ProductRestockController.destroy: subtract the order's quantity from its product, then
        delete the order. */
    method DestroyRestockOrder(id: OrderId) returns (r: Outcome)
      requires Valid()
      modifies this`products, this`orders
      ensures Valid()
      ensures r == Refused(NotFound) <==> id !in old(orders)
      ensures r == Refused(Failed) <==> id in old(orders) && old(orders)[id].productId !in old(products)
      ensures r.Done? <==> id in old(orders) && old(orders)[id].productId in old(products)
      ensures r.Refused? ==> unchanged(this)
      ensures r.Done? ==> (id in old(orders) && old(orders)[id].productId in old(products) &&
        State() == RestockRemoved(old(State()), id))
      ensures old(Balanced(State())) ==> Balanced(State())
    {
      if id !in orders {
        return Refused(NotFound);
      }
      var order := orders[id];
      if order.productId !in products {
        return Refused(Failed);
      }
      ghost var before := State();
      var after := RestockRemoved(State(), id);
      RemovedShape(before, id);
      products := after.products;
      orders := after.orders;
      if Balanced(before) {
        RestockRemovedKeepsBalance(before, id);
      }
      r := Done;
    }
  }

  /** The worked example: a product created with 100 units, restocked by 50, that restock
      edited to 30 and then deleted. */
  method RestockScenario(now: Timestamp)
  {
    var inventory := new Inventory({7}, map[1 := Category("Tools", None)]);
    var created := inventory.CreateProduct(1, "Hammer", 1250, 100, 7, now);
    assert created.Ok?;
    var pid := created.value;
    assert inventory.products[pid].quantity == 100;
    var restock := inventory.CreateRestockOrder(7, pid, 50, now);
    assert restock.Ok?;
    var id := restock.value;
    assert inventory.orders[id].productId == pid;
    assert pid in inventory.products && 7 in inventory.users;
    assert inventory.products[pid].quantity == 150;
    var edited := inventory.UpdateRestockOrder(id, 7, pid, 30);
    assert edited.Ok?;
    assert inventory.products[pid].quantity == 130;
    var deleted := inventory.DestroyRestockOrder(id);
    assert deleted.Done?;
    assert inventory.products[pid].quantity == 100;
    assert Balanced(inventory.State());
  }
}
