/** The inventory transaction feed (View_Inventory): restock orders, settled deliveries and
    walk-in sales as one list of transactions, newest first, each outgoing movement stamped
    with the product's latest restock before it, paginated. */
module TransactionFeed {
  import opened Schema
  import opened Collections
  import opened Text

  /** The tables the feed reads. Sequences are in the order the database returns rows. */
  datatype Tables = Tables(
    products: map<ProductId, Product>,
    categories: map<CategoryId, Category>,
    restocks: seq<RestockOrder>,
    deliveries: seq<DeliveryLine>,
    saleLines: seq<SaleLine>)

  /** One transaction of the feed; `D` is the type of its dates (timestamps before formatting,
      strings after). Columns a query does not select are None. */
  datatype Txn<D> = Txn(
    productId: ProductId,
    productName: string,
    categoryName: string,
    deliveryId: Option<nat>,
    quantity: int,
    damages: Option<int>,
    price: Option<int>,
    totalValue: int,
    dateIn: Option<D>,
    dateOut: D,
    kind: Kind,
    deliveryStatus: Option<string>)

  function DateOut(row: Txn<Timestamp>): int {
    row.dateOut
  }

  function Quantity(row: Txn<Timestamp>): int {
    row.quantity
  }

  /** The quantity a row restocks: its quantity for a restock, nothing otherwise. */
  function RestockedBy(row: Txn<Timestamp>): int {
    if row.kind == Restock then row.quantity else 0
  }

  // ---------------------------------------------------------------------------------------
  // date_in: the latest restock at or before the movement

  predicate Precedes(o: RestockOrder, p: ProductId, at: Timestamp) {
    o.productId == p && o.createdAt <= at
  }

  /** `SELECT MAX(created_at) FROM product_restock_orders WHERE product_id = p AND
      created_at <= at`, which is NULL when no row qualifies. */
  function LatestRestock(restocks: seq<RestockOrder>, p: ProductId, at: Timestamp): (r: Option<Timestamp>)
    ensures r.None? <==> forall o | o in restocks :: !Precedes(o, p, at)
    ensures r.Some? ==> exists o | o in restocks :: Precedes(o, p, at) && o.createdAt == r.value
    ensures r.Some? ==> forall o | o in restocks && Precedes(o, p, at) :: o.createdAt <= r.value
  {
    if restocks == [] then None
    else
      var o := restocks[0];
      var rest := LatestRestock(restocks[1..], p, at);
      assert forall x | x in restocks :: x == o || x in restocks[1..];
      if !Precedes(o, p, at) then rest
      else if rest.None? || rest.value < o.createdAt then Some(o.createdAt)
      else rest
  }

  // ---------------------------------------------------------------------------------------
  // The rows each source contributes

  /** The inner joins with `products` and `categories` find both rows. */
  predicate Joined(t: Tables, p: ProductId) {
    p in t.products && t.products[p].categoryId in t.categories
  }

  /** `TRIM(categories.category_name)` of the product's category. */
  function CategoryName(t: Tables, p: ProductId): string
    requires Joined(t, p)
  {
    Trim(t.categories[t.products[p].categoryId].name, IsSqlSpace)
  }

  /** A restock order's row: valued at the product's original price, in and out on the day it
      was placed. */
  function RestockEntry(t: Tables, o: RestockOrder): (r: Option<Txn<Timestamp>>)
    ensures r.Some? <==> Joined(t, o.productId)
    ensures r.Some? ==> && r.value.kind == Restock && r.value.productId == o.productId
                        && r.value.quantity == o.quantity
                        && r.value.totalValue == o.quantity * t.products[o.productId].originalPrice
                        && r.value.dateIn == Some(o.createdAt) && r.value.dateOut == o.createdAt
    ensures r.Some? ==> && r.value.productName == t.products[o.productId].name
                        && r.value.categoryName == Trim(t.categories[t.products[o.productId].categoryId].name, IsSqlSpace)
                        && r.value.deliveryId.None? && r.value.damages.None? && r.value.price.None?
                        && r.value.deliveryStatus.None?
  {
    if !Joined(t, o.productId) then None
    else
      var product := t.products[o.productId];
      Some(Txn(o.productId, product.name, CategoryName(t, o.productId), None, o.quantity, None, None,
               o.quantity * product.originalPrice, Some(o.createdAt), o.createdAt, Restock, None))
  }

  /** The `product_details` lines of d's purchase order that price d, under the join the
      controllers write: every line of the purchase order, whatever its product. */
  function PricingAsWritten(d: DeliveryLine, lines: seq<SaleLine>): seq<(DeliveryLine, SaleLine)> {
    FilterMap(lines, (pd: SaleLine) => if pd.purchaseOrderId == d.purchaseOrderId then Some((d, pd)) else None)
  }

  /** The lines that price d under the evidently intended join: the lines of d's purchase
      order for d's own product. */
  function Pricing(d: DeliveryLine, lines: seq<SaleLine>): (r: seq<(DeliveryLine, SaleLine)>)
    ensures forall pair | pair in r :: && pair.0 == d && pair.1 in lines
                                       && pair.1.purchaseOrderId == d.purchaseOrderId
                                       && pair.1.productId == d.productId
    ensures forall pd | pd in lines && pd.purchaseOrderId == d.purchaseOrderId && pd.productId == d.productId ::
              (d, pd) in r
  {
    FilterMap(lines, (pd: SaleLine) =>
      if pd.purchaseOrderId == d.purchaseOrderId && pd.productId == d.productId then Some((d, pd)) else None)
  }

  /** `delivery_products JOIN product_details`, one delivery line after another. */
  function PricedDeliveries(ds: seq<DeliveryLine>, lines: seq<SaleLine>): (r: seq<(DeliveryLine, SaleLine)>)
    ensures forall pair | pair in r :: && pair.0 in ds && pair.1 in lines
                                       && pair.1.purchaseOrderId == pair.0.purchaseOrderId
                                       && pair.1.productId == pair.0.productId
  {
    if ds == [] then []
    else
      var rest := PricedDeliveries(ds[1..], lines);
      assert forall d | d in ds[1..] :: d in ds;
      Pricing(ds[0], lines) + rest
  }

  lemma {:induction false} PricedDeliveriesComplete(ds: seq<DeliveryLine>, lines: seq<SaleLine>, d: DeliveryLine, pd: SaleLine)
    requires d in ds && pd in lines
    requires pd.purchaseOrderId == d.purchaseOrderId && pd.productId == d.productId
    ensures (d, pd) in PricedDeliveries(ds, lines)
  {
    if ds[0] != d {
      PricedDeliveriesComplete(ds[1..], lines, d, pd);
    }
  }

  /** A delivery's row: a settled delivery line, valued at the price of its purchase-order
      line, out on the day of the delivery and in on the product's latest restock before it. */
  function DeliveryEntry(t: Tables, pair: (DeliveryLine, SaleLine)): (r: Option<Txn<Timestamp>>)
    ensures r.Some? <==> pair.0.status == Settled && Joined(t, pair.0.productId)
    ensures r.Some? ==> && r.value.kind == Delivery && r.value.productId == pair.0.productId
                        && r.value.quantity == pair.0.quantity
                        && r.value.deliveryStatus == Some(Settled)
                        && r.value.price == Some(pair.1.price)
                        && r.value.totalValue == pair.0.quantity * pair.1.price
                        && r.value.dateOut == pair.0.createdAt
                        && r.value.dateIn == LatestRestock(t.restocks, pair.0.productId, pair.0.createdAt)
    ensures r.Some? ==> && r.value.productName == t.products[pair.0.productId].name
                        && r.value.categoryName
                             == Trim(t.categories[t.products[pair.0.productId].categoryId].name, IsSqlSpace)
                        && r.value.deliveryId == Some(pair.0.deliveryId)
                        && r.value.damages == Some(pair.0.damages)
  {
    var (d, pd) := pair;
    if d.status != Settled || !Joined(t, d.productId) then None
    else
      Some(Txn(d.productId, t.products[d.productId].name, CategoryName(t, d.productId), Some(d.deliveryId),
               d.quantity, Some(d.damages), Some(pd.price), d.quantity * pd.price,
               LatestRestock(t.restocks, d.productId, d.createdAt), d.createdAt, Delivery, Some(d.status)))
  }

  /** A walk-in sale's row: a purchase-order line of sale type 2, valued at the product's
      original price, out on the day of the order and in on the latest restock before it. */
  function WalkInEntry(t: Tables, pd: SaleLine): (r: Option<Txn<Timestamp>>)
    ensures r.Some? <==> pd.saleTypeId == WalkInSaleType && Joined(t, pd.productId)
    ensures r.Some? ==> && r.value.kind == WalkIn && r.value.productId == pd.productId
                        && r.value.quantity == pd.quantity
                        && r.value.totalValue == pd.quantity * t.products[pd.productId].originalPrice
                        && r.value.dateOut == pd.createdAt
                        && r.value.dateIn == LatestRestock(t.restocks, pd.productId, pd.createdAt)
    ensures r.Some? ==> && r.value.productName == t.products[pd.productId].name
                        && r.value.categoryName
                             == Trim(t.categories[t.products[pd.productId].categoryId].name, IsSqlSpace)
                        && r.value.deliveryId.None? && r.value.damages.None? && r.value.price.None?
                        && r.value.deliveryStatus.None?
  {
    if pd.saleTypeId != WalkInSaleType || !Joined(t, pd.productId) then None
    else
      var product := t.products[pd.productId];
      Some(Txn(pd.productId, product.name, CategoryName(t, pd.productId), None, pd.quantity, None, None,
               pd.quantity * product.originalPrice,
               LatestRestock(t.restocks, pd.productId, pd.createdAt), pd.createdAt, WalkIn, None))
  }

  /** A row the query's `where` clauses keep. */
  function Restricted(e: Option<Txn<Timestamp>>, keep: Txn<Timestamp> -> bool): Option<Txn<Timestamp>> {
    if e.Some? && keep(e.value) then e else None
  }

  /** The rows of each source, each source fetched only when requested. */
  datatype Sources = Sources(restocks: seq<Txn<Timestamp>>, deliveries: seq<Txn<Timestamp>>, walkIns: seq<Txn<Timestamp>>) {
    /** `$transactions->merge(...)` in the order the sources are fetched. */
    function Merged(): seq<Txn<Timestamp>> {
      restocks + deliveries + walkIns
    }
  }

  /** The restock query's rows for `orders`, in their order: the entry of each order the joins
      find and the filters keep, and nothing else. */
  function RestockRows(t: Tables, orders: seq<RestockOrder>, keep: Txn<Timestamp> -> bool): (r: seq<Txn<Timestamp>>)
    ensures forall row | row in r :: row.kind == Restock && keep(row)
    ensures forall row | row in r :: exists o | o in orders :: RestockEntry(t, o) == Some(row)
    ensures forall o | o in orders && RestockEntry(t, o).Some? && keep(RestockEntry(t, o).value) ::
              RestockEntry(t, o).value in r
  {
    var f := (o: RestockOrder) => Restricted(RestockEntry(t, o), keep);
    var r := FilterMap(orders, f);
    forall row | row in r ensures exists o | o in orders :: RestockEntry(t, o) == Some(row) {
      var o :| o in orders && f(o) == Some(row);
    }
    forall o | o in orders && RestockEntry(t, o).Some? && keep(RestockEntry(t, o).value)
      ensures RestockEntry(t, o).value in r
    {
      assert f(o).Some?;
    }
    r
  }

  /** The delivery query's rows for the delivery lines `ds` priced by `lines`: the entry of each
      joined pair the filters keep, and nothing else. */
  function DeliveryRows(t: Tables, ds: seq<DeliveryLine>, lines: seq<SaleLine>, keep: Txn<Timestamp> -> bool)
    : (r: seq<Txn<Timestamp>>)
    ensures forall row | row in r :: row.kind == Delivery && keep(row) && row.deliveryStatus == Some(Settled)
    ensures forall row | row in r :: exists pair | pair in PricedDeliveries(ds, lines) :: DeliveryEntry(t, pair) == Some(row)
    ensures forall d, pd | && d in ds && pd in lines && pd.purchaseOrderId == d.purchaseOrderId
                           && pd.productId == d.productId
                           && DeliveryEntry(t, (d, pd)).Some? && keep(DeliveryEntry(t, (d, pd)).value) ::
              DeliveryEntry(t, (d, pd)).value in r
  {
    var f := (pair: (DeliveryLine, SaleLine)) => Restricted(DeliveryEntry(t, pair), keep);
    var r := FilterMap(PricedDeliveries(ds, lines), f);
    forall row | row in r ensures exists pair | pair in PricedDeliveries(ds, lines) :: DeliveryEntry(t, pair) == Some(row) {
      var pair :| pair in PricedDeliveries(ds, lines) && f(pair) == Some(row);
      assert DeliveryEntry(t, pair) == Some(row);
    }
    forall d, pd | && d in ds && pd in lines && pd.purchaseOrderId == d.purchaseOrderId
                   && pd.productId == d.productId
                   && DeliveryEntry(t, (d, pd)).Some? && keep(DeliveryEntry(t, (d, pd)).value)
      ensures DeliveryEntry(t, (d, pd)).value in r
    {
      PricedDeliveriesComplete(ds, lines, d, pd);
      assert f((d, pd)).Some?;
    }
    r
  }

  /** The walk-in query's rows for `lines`: the entry of each sale-type-2 line the joins find
      and the filters keep, and nothing else. */
  function WalkInRows(t: Tables, lines: seq<SaleLine>, keep: Txn<Timestamp> -> bool): (r: seq<Txn<Timestamp>>)
    ensures forall row | row in r :: row.kind == WalkIn && keep(row)
    ensures forall row | row in r :: exists pd | pd in lines :: WalkInEntry(t, pd) == Some(row)
    ensures forall pd | pd in lines && WalkInEntry(t, pd).Some? && keep(WalkInEntry(t, pd).value) ::
              WalkInEntry(t, pd).value in r
  {
    var f := (pd: SaleLine) => Restricted(WalkInEntry(t, pd), keep);
    var r := FilterMap(lines, f);
    forall row | row in r ensures exists pd | pd in lines :: WalkInEntry(t, pd) == Some(row) {
      var pd :| pd in lines && f(pd) == Some(row);
    }
    forall pd | pd in lines && WalkInEntry(t, pd).Some? && keep(WalkInEntry(t, pd).value)
      ensures WalkInEntry(t, pd).value in r
    {
      assert f(pd).Some?;
    }
    r
  }

  /** One restock order gives its entry when the joins find it and the filters keep it, and
      nothing otherwise; the rows of two batches of orders are the rows of each, in turn. */
  lemma {:induction false} RestockRowsByRow(t: Tables, a: seq<RestockOrder>, b: seq<RestockOrder>, o: RestockOrder,
                                            keep: Txn<Timestamp> -> bool)
    ensures RestockRows(t, [o], keep)
         == if RestockEntry(t, o).Some? && keep(RestockEntry(t, o).value) then [RestockEntry(t, o).value] else []
    ensures RestockRows(t, a + b, keep) == RestockRows(t, a, keep) + RestockRows(t, b, keep)
  {
    var f := (o: RestockOrder) => Restricted(RestockEntry(t, o), keep);
    assert [o][1..] == [];
    FilterMapAppend(a, b, f);
  }

  /** One sale line gives its walk-in entry when it is of sale type 2, joined and kept, and
      nothing otherwise; the rows of two batches of lines are the rows of each, in turn. */
  lemma {:induction false} WalkInRowsByRow(t: Tables, a: seq<SaleLine>, b: seq<SaleLine>, pd: SaleLine,
                                           keep: Txn<Timestamp> -> bool)
    ensures WalkInRows(t, [pd], keep)
         == if WalkInEntry(t, pd).Some? && keep(WalkInEntry(t, pd).value) then [WalkInEntry(t, pd).value] else []
    ensures WalkInRows(t, a + b, keep) == WalkInRows(t, a, keep) + WalkInRows(t, b, keep)
  {
    var f := (pd: SaleLine) => Restricted(WalkInEntry(t, pd), keep);
    assert [pd][1..] == [];
    FilterMapAppend(a, b, f);
  }

  /** The join of two batches of delivery lines is the join of each, in turn. */
  lemma {:induction false} PricedDeliveriesAppend(a: seq<DeliveryLine>, b: seq<DeliveryLine>, lines: seq<SaleLine>)
    ensures PricedDeliveries(a + b, lines) == PricedDeliveries(a, lines) + PricedDeliveries(b, lines)
  {
    if a == [] {
      assert a + b == b;
    } else {
      assert (a + b)[0] == a[0];
      assert (a + b)[1..] == a[1..] + b;
      PricedDeliveriesAppend(a[1..], b, lines);
      calc {
        PricedDeliveries(a + b, lines);
        Pricing(a[0], lines) + PricedDeliveries(a[1..] + b, lines);
        Pricing(a[0], lines) + (PricedDeliveries(a[1..], lines) + PricedDeliveries(b, lines));
        (Pricing(a[0], lines) + PricedDeliveries(a[1..], lines)) + PricedDeliveries(b, lines);
      }
    }
  }

  /** The join of a single delivery line is that line's pricing. */
  lemma PricedOneDelivery(d: DeliveryLine, lines: seq<SaleLine>)
    ensures PricedDeliveries([d], lines) == Pricing(d, lines)
  {
    assert [d][1..] == [];
    assert PricedDeliveries([d], lines) == Pricing(d, lines) + PricedDeliveries([], lines);
  }

  /** One sale line prices d exactly when it is of d's purchase order and product. */
  lemma PricingOfOneLine(d: DeliveryLine, pd: SaleLine)
    ensures Pricing(d, [pd]) == if pd.purchaseOrderId == d.purchaseOrderId && pd.productId == d.productId then [(d, pd)] else []
  {
    assert [pd][1..] == [];
  }

  /** Two batches of sale lines price d in turn. */
  lemma PricingAppend(d: DeliveryLine, a: seq<SaleLine>, b: seq<SaleLine>)
    ensures Pricing(d, a + b) == Pricing(d, a) + Pricing(d, b)
  {
    var g := (pd: SaleLine) =>
      if pd.purchaseOrderId == d.purchaseOrderId && pd.productId == d.productId then Some((d, pd)) else None;
    FilterMapAppend(a, b, g);
  }

  /** The rows of two batches of delivery lines are the rows of each, in turn. */
  lemma DeliveryRowsByDelivery(t: Tables, a: seq<DeliveryLine>, b: seq<DeliveryLine>, lines: seq<SaleLine>,
                               keep: Txn<Timestamp> -> bool)
    ensures DeliveryRows(t, a + b, lines, keep) == DeliveryRows(t, a, lines, keep) + DeliveryRows(t, b, lines, keep)
  {
    var f := (pair: (DeliveryLine, SaleLine)) => Restricted(DeliveryEntry(t, pair), keep);
    PricedDeliveriesAppend(a, b, lines);
    FilterMapAppend(PricedDeliveries(a, lines), PricedDeliveries(b, lines), f);
  }

  /** One delivery line priced by one sale line gives its entry when the line is of the same
      purchase order and product, settled, joined and kept, and nothing otherwise. */
  lemma DeliveryRowsOfOnePair(t: Tables, d: DeliveryLine, pd: SaleLine, keep: Txn<Timestamp> -> bool)
    ensures DeliveryRows(t, [d], [pd], keep)
         == if && pd.purchaseOrderId == d.purchaseOrderId && pd.productId == d.productId
               && DeliveryEntry(t, (d, pd)).Some? && keep(DeliveryEntry(t, (d, pd)).value)
            then [DeliveryEntry(t, (d, pd)).value] else []
  {
    PricedOneDelivery(d, [pd]);
    PricingOfOneLine(d, pd);
    assert [(d, pd)][1..] == [];
  }

  /** One delivery line priced by two batches of sale lines gives the rows of each, in turn. */
  lemma DeliveryRowsByLine(t: Tables, d: DeliveryLine, a: seq<SaleLine>, b: seq<SaleLine>, keep: Txn<Timestamp> -> bool)
    ensures DeliveryRows(t, [d], a + b, keep) == DeliveryRows(t, [d], a, keep) + DeliveryRows(t, [d], b, keep)
  {
    var f := (pair: (DeliveryLine, SaleLine)) => Restricted(DeliveryEntry(t, pair), keep);
    PricedOneDelivery(d, a + b);
    PricedOneDelivery(d, a);
    PricedOneDelivery(d, b);
    PricingAppend(d, a, b);
    FilterMapAppend(Pricing(d, a), Pricing(d, b), f);
  }

  function Collect(t: Tables, requested: Kind -> bool, keep: Txn<Timestamp> -> bool): (r: Sources)
    ensures forall row | row in r.restocks :: row.kind == Restock && keep(row)
    ensures forall row | row in r.deliveries :: row.kind == Delivery && keep(row) && row.deliveryStatus == Some(Settled)
    ensures forall row | row in r.walkIns :: row.kind == WalkIn && keep(row)
    ensures forall row | row in r.restocks :: exists o | o in t.restocks :: RestockEntry(t, o) == Some(row)
    ensures forall row | row in r.deliveries ::
              exists pair | pair in PricedDeliveries(t.deliveries, t.saleLines) :: DeliveryEntry(t, pair) == Some(row)
    ensures forall row | row in r.walkIns :: exists pd | pd in t.saleLines :: WalkInEntry(t, pd) == Some(row)
    ensures !requested(Restock) ==> r.restocks == []
    ensures !requested(Delivery) ==> r.deliveries == []
    ensures !requested(WalkIn) ==> r.walkIns == []
    ensures requested(Restock) ==> |r.restocks| == |RestockRows(t, t.restocks, keep)|
    ensures requested(Delivery) ==> |r.deliveries| == |DeliveryRows(t, t.deliveries, t.saleLines, keep)|
    ensures requested(WalkIn) ==> |r.walkIns| == |WalkInRows(t, t.saleLines, keep)|
  {
    Sources(
      if requested(Restock) then RestockRows(t, t.restocks, keep) else [],
      if requested(Delivery) then DeliveryRows(t, t.deliveries, t.saleLines, keep) else [],
      if requested(WalkIn) then WalkInRows(t, t.saleLines, keep) else [])
  }

  /** Every requested source row that the joins find and the filters keep is collected. */
  lemma CollectComplete(t: Tables, requested: Kind -> bool, keep: Txn<Timestamp> -> bool)
    ensures forall o | o in t.restocks && requested(Restock) && RestockEntry(t, o).Some? && keep(RestockEntry(t, o).value) ::
              RestockEntry(t, o).value in Collect(t, requested, keep).restocks
    ensures forall d, pd | d in t.deliveries && pd in t.saleLines && requested(Delivery)
                           && pd.purchaseOrderId == d.purchaseOrderId && pd.productId == d.productId
                           && DeliveryEntry(t, (d, pd)).Some? && keep(DeliveryEntry(t, (d, pd)).value) ::
              DeliveryEntry(t, (d, pd)).value in Collect(t, requested, keep).deliveries
    ensures forall pd | pd in t.saleLines && requested(WalkIn) && WalkInEntry(t, pd).Some? && keep(WalkInEntry(t, pd).value) ::
              WalkInEntry(t, pd).value in Collect(t, requested, keep).walkIns
  {
  }

  /** `sortByDesc('date_out')`: newest first, a permutation of the merged rows. */
  function Newest(s: Sources): (r: seq<Txn<Timestamp>>)
    ensures multiset(r) == multiset(s.Merged())
    ensures DescendingBy(r, DateOut)
  {
    SortDesc(s.Merged(), DateOut)
  }

  /** Transactions with the same date_out keep the order of the sources: restocks, then
      deliveries, then walk-ins, each in the order the database returned them. */
  lemma TiesKeepSourceOrder(s: Sources, day: int)
    ensures WithKey(Newest(s), DateOut, day)
         == WithKey(s.restocks, DateOut, day) + WithKey(s.deliveries, DateOut, day) + WithKey(s.walkIns, DateOut, day)
  {
    SortDescStable(s.Merged(), DateOut, day);
    WithKeyAppend(s.restocks + s.deliveries, s.walkIns, DateOut, day);
    WithKeyAppend(s.restocks, s.deliveries, DateOut, day);
  }

  /** Each source holds only rows of its own kind. */
  predicate Kinded(s: Sources) {
    && (forall row | row in s.restocks :: row.kind == Restock)
    && (forall row | row in s.deliveries :: row.kind == Delivery)
    && (forall row | row in s.walkIns :: row.kind == WalkIn)
  }

  /** When every source is of its own kind, the restock rows of the sorted feed add up to the
      restocked quantity of the restock source. */
  lemma RestockTotalOfSources(s: Sources)
    requires Kinded(s)
    ensures Sum(Newest(s), RestockedBy) == Sum(s.restocks, Quantity)
  {
    SumPermutation(Newest(s), s.Merged(), RestockedBy);
    SumAppend(s.restocks + s.deliveries, s.walkIns, RestockedBy);
    SumAppend(s.restocks, s.deliveries, RestockedBy);
    SumPointwise(s.restocks, RestockedBy, Quantity);
    SumZero(s.deliveries, RestockedBy);
    SumZero(s.walkIns, RestockedBy);
  }

  /** The quantity the feed's restock rows add up to is the restocked total the response
      reports, however the rows are ordered. */
  lemma RestockTotalOfFeed(t: Tables, requested: Kind -> bool, keep: Txn<Timestamp> -> bool)
    ensures var s := Collect(t, requested, keep);
      Sum(Newest(s), RestockedBy) == Sum(s.restocks, Quantity)
  {
    RestockTotalOfSources(Collect(t, requested, keep));
  }

  /** A row's date_in is at or before its date_out; a restock is in the moment it is out, and
      an outgoing movement is in at its product's latest restock, or never. */
  predicate DatedIn(t: Tables, row: Txn<Timestamp>) {
    && (row.dateIn.Some? ==> row.dateIn.value <= row.dateOut)
    && (row.kind == Restock ==> row.dateIn == Some(row.dateOut))
    && (row.kind != Restock ==> row.dateIn == LatestRestock(t.restocks, row.productId, row.dateOut))
  }

  lemma RestockRowsDated(t: Tables, requested: Kind -> bool, keep: Txn<Timestamp> -> bool)
    ensures forall row | row in Collect(t, requested, keep).restocks :: DatedIn(t, row)
  {
    forall row | row in Collect(t, requested, keep).restocks ensures DatedIn(t, row) {
      var o :| o in t.restocks && RestockEntry(t, o) == Some(row);
    }
  }

  lemma DeliveryRowsDated(t: Tables, requested: Kind -> bool, keep: Txn<Timestamp> -> bool)
    ensures forall row | row in Collect(t, requested, keep).deliveries :: DatedIn(t, row)
  {
    forall row | row in Collect(t, requested, keep).deliveries ensures DatedIn(t, row) {
      var pair :| pair in PricedDeliveries(t.deliveries, t.saleLines) && DeliveryEntry(t, pair) == Some(row);
    }
  }

  lemma WalkInRowsDated(t: Tables, requested: Kind -> bool, keep: Txn<Timestamp> -> bool)
    ensures forall row | row in Collect(t, requested, keep).walkIns :: DatedIn(t, row)
  {
    forall row | row in Collect(t, requested, keep).walkIns ensures DatedIn(t, row) {
      var pd :| pd in t.saleLines && WalkInEntry(t, pd) == Some(row);
    }
  }

  /** Every transaction of the feed is dated consistently. */
  lemma DatesInOrder(t: Tables, requested: Kind -> bool, keep: Txn<Timestamp> -> bool)
    ensures forall row | row in Newest(Collect(t, requested, keep)) :: DatedIn(t, row)
  {
    var s := Collect(t, requested, keep);
    RestockRowsDated(t, requested, keep);
    DeliveryRowsDated(t, requested, keep);
    WalkInRowsDated(t, requested, keep);
    forall row | row in Newest(s) ensures DatedIn(t, row) {
      assert row in multiset(s.Merged());
    }
  }

  /** A row names the product it is about and that product's trimmed category, which is what
      the category filter and the name search test. */
  predicate Named(t: Tables, row: Txn<Timestamp>) {
    Joined(t, row.productId) && row.productName == t.products[row.productId].name
    && row.categoryName == CategoryName(t, row.productId)
  }

  lemma RestockRowsNamed(t: Tables, requested: Kind -> bool, keep: Txn<Timestamp> -> bool)
    ensures forall row | row in Collect(t, requested, keep).restocks :: Named(t, row)
  {
    forall row | row in Collect(t, requested, keep).restocks ensures Named(t, row) {
      var o :| o in t.restocks && RestockEntry(t, o) == Some(row);
    }
  }

  lemma DeliveryRowsNamed(t: Tables, requested: Kind -> bool, keep: Txn<Timestamp> -> bool)
    ensures forall row | row in Collect(t, requested, keep).deliveries :: Named(t, row)
  {
    forall row | row in Collect(t, requested, keep).deliveries ensures Named(t, row) {
      var pair :| pair in PricedDeliveries(t.deliveries, t.saleLines) && DeliveryEntry(t, pair) == Some(row);
    }
  }

  lemma WalkInRowsNamed(t: Tables, requested: Kind -> bool, keep: Txn<Timestamp> -> bool)
    ensures forall row | row in Collect(t, requested, keep).walkIns :: Named(t, row)
  {
    forall row | row in Collect(t, requested, keep).walkIns ensures Named(t, row) {
      var pd :| pd in t.saleLines && WalkInEntry(t, pd) == Some(row);
    }
  }

  /** Every transaction of the feed carries its product's name and trimmed category name. */
  lemma RowsNamed(t: Tables, requested: Kind -> bool, keep: Txn<Timestamp> -> bool)
    ensures forall row | row in Newest(Collect(t, requested, keep)) :: Named(t, row)
  {
    var s := Collect(t, requested, keep);
    RestockRowsNamed(t, requested, keep);
    DeliveryRowsNamed(t, requested, keep);
    WalkInRowsNamed(t, requested, keep);
    forall row | row in Newest(s) ensures Named(t, row) {
      assert row in multiset(s.Merged());
    }
  }

  // ---------------------------------------------------------------------------------------
  // Date formatting

  /** `Carbon::parse(...)->format('n/j/Y (g:i a)')` on both dates; a NULL date_in stays NULL. */
  function Formatted(row: Txn<Timestamp>, fmt: Timestamp -> string): (r: Txn<string>)
    ensures r.dateOut == fmt(row.dateOut)
    ensures r.dateIn.None? <==> row.dateIn.None?
    ensures row.dateIn.Some? ==> r.dateIn == Some(fmt(row.dateIn.value))
    ensures && r.productId == row.productId && r.productName == row.productName
            && r.categoryName == row.categoryName && r.deliveryId == row.deliveryId
            && r.quantity == row.quantity && r.damages == row.damages && r.price == row.price
            && r.totalValue == row.totalValue && r.kind == row.kind && r.deliveryStatus == row.deliveryStatus
  {
    Txn(row.productId, row.productName, row.categoryName, row.deliveryId, row.quantity, row.damages,
        row.price, row.totalValue, if row.dateIn.Some? then Some(fmt(row.dateIn.value)) else None,
        fmt(row.dateOut), row.kind, row.deliveryStatus)
  }

  function FormattedAll(rows: seq<Txn<Timestamp>>, fmt: Timestamp -> string): (r: seq<Txn<string>>)
    ensures |r| == |rows|
    ensures forall i | 0 <= i < |rows| :: r[i] == Formatted(rows[i], fmt)
  {
    seq(|rows|, i requires 0 <= i < |rows| => Formatted(rows[i], fmt))
  }

  // ---------------------------------------------------------------------------------------
  // ViewTransactionByProductId

  /** A row as the by-product queries select it: none of them selects a delivery id, damages
      or a delivery status, so those columns are null; every other column is kept. */
  function ByProductColumns(row: Txn<Timestamp>): (r: Txn<Timestamp>)
    ensures r.deliveryId.None? && r.damages.None? && r.deliveryStatus.None?
    ensures r.(deliveryId := row.deliveryId, damages := row.damages, deliveryStatus := row.deliveryStatus) == row
  {
    row.(deliveryId := None, damages := None, deliveryStatus := None)
  }

  /** Rows of product p and of kind k, as the by-product queries select them. */
  function ByProductRows(rows: seq<Txn<Timestamp>>, p: ProductId, k: Kind): (r: seq<Txn<Timestamp>>)
    requires forall row | row in rows :: row.productId == p && row.kind == k
    ensures |r| == |rows|
    ensures forall row | row in r :: && row.productId == p && row.kind == k
                                      && row.deliveryId.None? && row.damages.None? && row.deliveryStatus.None?
    ensures forall row | row in rows :: ByProductColumns(row) in r
    ensures forall row | row in r :: exists x | x in rows :: row == ByProductColumns(x)
  {
    var r := seq(|rows|, i requires 0 <= i < |rows| => ByProductColumns(rows[i]));
    assert forall i | 0 <= i < |r| :: r[i].productId == rows[i].productId && r[i].kind == rows[i].kind;
    forall row | row in rows ensures ByProductColumns(row) in r {
      var i :| 0 <= i < |rows| && rows[i] == row;
      assert r[i] == ByProductColumns(row);
    }
    forall row | row in r ensures exists x | x in rows :: row == ByProductColumns(x) {
      var i :| 0 <= i < |r| && r[i] == row;
      assert rows[i] in rows;
    }
    r
  }

  /** `where('product_id', $product_id)`. */
  function WhereProduct(p: ProductId): Txn<Timestamp> -> bool {
    (row: Txn<Timestamp>) => row.productId == p
  }

  /** The by-product restock query: product p's restock rows, each the entry of one of its
      orders, as many as the restock query returns. */
  function ByProductRestocks(t: Tables, p: ProductId): (r: seq<Txn<Timestamp>>)
    ensures forall row | row in r :: && row.kind == Restock && row.productId == p
                                      && row.deliveryId.None? && row.damages.None? && row.deliveryStatus.None?
    ensures forall row | row in r ::
              exists o | o in t.restocks :: RestockEntry(t, o).Some? && row == ByProductColumns(RestockEntry(t, o).value)
    ensures |r| == |RestockRows(t, t.restocks, WhereProduct(p))|
  {
    var rows := RestockRows(t, t.restocks, WhereProduct(p));
    var r := ByProductRows(rows, p, Restock);
    forall row | row in r
      ensures exists o | o in t.restocks :: RestockEntry(t, o).Some? && row == ByProductColumns(RestockEntry(t, o).value)
    {
      var x :| x in rows && row == ByProductColumns(x);
      var o :| o in t.restocks && RestockEntry(t, o) == Some(x);
    }
    r
  }

  /** The by-product delivery query: product p's settled delivery rows, each the entry of one
      joined pair, as many as the delivery query returns. */
  function ByProductDeliveries(t: Tables, p: ProductId): (r: seq<Txn<Timestamp>>)
    ensures forall row | row in r :: && row.kind == Delivery && row.productId == p
                                      && row.deliveryId.None? && row.damages.None? && row.deliveryStatus.None?
    ensures forall row | row in r ::
              exists pair | pair in PricedDeliveries(t.deliveries, t.saleLines) ::
                DeliveryEntry(t, pair).Some? && row == ByProductColumns(DeliveryEntry(t, pair).value)
    ensures |r| == |DeliveryRows(t, t.deliveries, t.saleLines, WhereProduct(p))|
  {
    var rows := DeliveryRows(t, t.deliveries, t.saleLines, WhereProduct(p));
    var r := ByProductRows(rows, p, Delivery);
    forall row | row in r
      ensures exists pair | pair in PricedDeliveries(t.deliveries, t.saleLines) ::
                DeliveryEntry(t, pair).Some? && row == ByProductColumns(DeliveryEntry(t, pair).value)
    {
      var x :| x in rows && row == ByProductColumns(x);
      var pair :| pair in PricedDeliveries(t.deliveries, t.saleLines) && DeliveryEntry(t, pair) == Some(x);
    }
    r
  }

  /** The by-product walk-in query: product p's walk-in rows, each the entry of one sale-type-2
      line, as many as the walk-in query returns. */
  function ByProductWalkIns(t: Tables, p: ProductId): (r: seq<Txn<Timestamp>>)
    ensures forall row | row in r :: && row.kind == WalkIn && row.productId == p
                                      && row.deliveryId.None? && row.damages.None? && row.deliveryStatus.None?
    ensures forall row | row in r ::
              exists pd | pd in t.saleLines :: WalkInEntry(t, pd).Some? && row == ByProductColumns(WalkInEntry(t, pd).value)
    ensures |r| == |WalkInRows(t, t.saleLines, WhereProduct(p))|
  {
    var rows := WalkInRows(t, t.saleLines, WhereProduct(p));
    var r := ByProductRows(rows, p, WalkIn);
    forall row | row in r
      ensures exists pd | pd in t.saleLines :: WalkInEntry(t, pd).Some? && row == ByProductColumns(WalkInEntry(t, pd).value)
    {
      var x :| x in rows && row == ByProductColumns(x);
      var pd :| pd in t.saleLines && WalkInEntry(t, pd) == Some(x);
    }
    r
  }

  /** Every source, restricted to product p, with the by-product queries' columns. */
  function OfProduct(t: Tables, p: ProductId): (r: Sources)
    ensures forall row | row in r.restocks :: row.kind == Restock
    ensures forall row | row in r.deliveries :: row.kind == Delivery
    ensures forall row | row in r.walkIns :: row.kind == WalkIn
    ensures forall row | row in r.Merged() ::
              && row.productId == p
              && row.deliveryId.None? && row.damages.None? && row.deliveryStatus.None?
    ensures |r.restocks| == |RestockRows(t, t.restocks, WhereProduct(p))|
    ensures |r.deliveries| == |DeliveryRows(t, t.deliveries, t.saleLines, WhereProduct(p))|
    ensures |r.walkIns| == |WalkInRows(t, t.saleLines, WhereProduct(p))|
  {
    var r := Sources(ByProductRestocks(t, p), ByProductDeliveries(t, p), ByProductWalkIns(t, p));
    assert forall row | row in r.Merged() :: row in r.restocks || row in r.deliveries || row in r.walkIns;
    r
  }

  /** The by-product feed misses no row of the product: every joined restock order, settled
      priced delivery line and walk-in line of p is listed, with the by-product columns. */
  lemma OfProductComplete(t: Tables, p: ProductId)
    ensures forall o | o in t.restocks && o.productId == p && Joined(t, p) ::
              ByProductColumns(RestockEntry(t, o).value) in OfProduct(t, p).restocks
    ensures forall d, pd | && d in t.deliveries && pd in t.saleLines && d.productId == p && d.status == Settled
                           && Joined(t, p) && pd.purchaseOrderId == d.purchaseOrderId && pd.productId == p ::
              ByProductColumns(DeliveryEntry(t, (d, pd)).value) in OfProduct(t, p).deliveries
    ensures forall pd | pd in t.saleLines && pd.productId == p && pd.saleTypeId == WalkInSaleType && Joined(t, p) ::
              ByProductColumns(WalkInEntry(t, pd).value) in OfProduct(t, p).walkIns
  {
    forall o | o in t.restocks && o.productId == p && Joined(t, p)
      ensures ByProductColumns(RestockEntry(t, o).value) in OfProduct(t, p).restocks
    {
      assert WhereProduct(p)(RestockEntry(t, o).value);
    }
    forall d, pd | && d in t.deliveries && pd in t.saleLines && d.productId == p && d.status == Settled
                   && Joined(t, p) && pd.purchaseOrderId == d.purchaseOrderId && pd.productId == p
      ensures ByProductColumns(DeliveryEntry(t, (d, pd)).value) in OfProduct(t, p).deliveries
    {
      assert WhereProduct(p)(DeliveryEntry(t, (d, pd)).value);
    }
    forall pd | pd in t.saleLines && pd.productId == p && pd.saleTypeId == WalkInSaleType && Joined(t, p)
      ensures ByProductColumns(WalkInEntry(t, pd).value) in OfProduct(t, p).walkIns
    {
      assert WhereProduct(p)(WalkInEntry(t, pd).value);
    }
  }

  /** All three sources, restricted to one product, newest first, one page of them. A zero
      page size has no listing (the division in `ceil($total / $perPage)` fails). */
  function ViewTransactionByProductId(t: Tables, p: ProductId, page: int, perPage: int): (r: Option<Listing<Txn<Timestamp>>>)
    ensures r.None? <==> perPage == 0
    ensures r.Some? ==> r.value.total == |OfProduct(t, p).Merged()|
    ensures r.Some? ==> r.value.total == |ByProductRestocks(t, p)| + |ByProductDeliveries(t, p)| + |ByProductWalkIns(t, p)|
    ensures r.Some? && perPage > 0 ==> r.value.lastPage == CeilDiv(r.value.total, perPage)
    ensures r.Some? && page >= 1 && perPage > 0 ==> r.value.data == Page(Newest(OfProduct(t, p)), page, perPage)
    ensures r.Some? && page == 0 && perPage > 0 ==>
      var rows := Newest(OfProduct(t, p));
      r.value.data == rows[|rows| - Min(perPage, |rows|)..]
  {
    var rows := Newest(OfProduct(t, p));
    assert |rows| == |OfProduct(t, p).Merged()| by {
      assert |multiset(rows)| == |multiset(OfProduct(t, p).Merged())|;
    }
    SlicedListing(rows, page, perPage)
  }

  /** Every transaction of the product's feed is that product's. */
  lemma ProductFeedIsOneProduct(t: Tables, p: ProductId)
    ensures forall row | row in Newest(OfProduct(t, p)) :: row.productId == p
  {
    var s := OfProduct(t, p);
    forall row | row in Newest(s) ensures row.productId == p {
      assert row in multiset(s.Merged());
    }
  }

  // ---------------------------------------------------------------------------------------
  // ViewTransaction

  /** The request: transaction types, dropdown categories, date range (calendar days; None when
      the input is missing or falsy), search term and type, page and page size. */
  datatype Query = Query(
    types: seq<string>,
    categories: seq<string>,
    dateFrom: Option<int>,
    dateTo: Option<int>,
    search: string,
    searchType: string,
    page: int,
    perPage: int)

  /** `trim($request->input('search', ''))`. */
  function SearchTerm(q: Query): string {
    Trim(q.search, IsPhpWhitespace)
  }

  /** The dropdown categories when any are selected; otherwise the search term when searching by
      category; otherwise none. */
  function CategoryFilter(q: Query): (r: seq<string>)
    ensures q.categories != [] ==> r == q.categories
    ensures q.categories == [] ==> (r != [] <==> q.searchType == "category" && Truthy(SearchTerm(q)))
  {
    if q.categories != [] then q.categories
    else if q.searchType == "category" && Truthy(SearchTerm(q)) then [SearchTerm(q)]
    else []
  }

  predicate ByName(q: Query) {
    Truthy(SearchTerm(q)) && q.searchType == "product"
  }

  /** `in_array('all', $types) || in_array($tag, $types)`: "all" asks for every kind;
      otherwise a kind is fetched exactly when its tag is listed. */
  predicate Requested(q: Query, k: Kind)
    ensures "all" in q.types ==> Requested(q, k)
    ensures "all" !in q.types ==> (Requested(q, k) <==> k.Tag() in q.types)
  {
    "all" in q.types || k.Tag() in q.types
  }

  /** `whereDate(created_at, '>=', from)` and `whereDate(created_at, '<=', to)`: the moment
      falls between the start of day `from` and the end of day `to`. */
  predicate InDates(q: Query, at: Timestamp)
    ensures InDates(q, at) <==>
      && (q.dateFrom.Some? ==> q.dateFrom.value * SecondsPerDay <= at)
      && (q.dateTo.Some? ==> at < (q.dateTo.value + 1) * SecondsPerDay)
  {
    (q.dateFrom.Some? ==> DayOf(at) >= q.dateFrom.value) && (q.dateTo.Some? ==> DayOf(at) <= q.dateTo.value)
  }

  /** A query without a date range, categories or search term. */
  predicate Unfiltered(q: Query) {
    q.dateFrom.None? && q.dateTo.None? && q.categories == [] && !Truthy(SearchTerm(q))
  }

  /** The `where` clauses of the query for a row of the row's kind. Walk-ins ignore the date
      range, and filter by name only when no category filter applies. */
  predicate Admits(q: Query, row: Txn<Timestamp>)
    ensures Admits(q, row) && row.kind != WalkIn ==> InDates(q, row.dateOut)
    ensures Admits(q, row) && CategoryFilter(q) != [] ==> row.categoryName in CategoryFilter(q)
    ensures Admits(q, row) && ByName(q) && CategoryFilter(q) == [] ==> Contains(row.productName, SearchTerm(q))
    ensures Admits(q, row) && ByName(q) && row.kind != WalkIn ==> Contains(row.productName, SearchTerm(q))
    ensures row.kind == WalkIn && CategoryFilter(q) != [] ==> (Admits(q, row) <==> row.categoryName in CategoryFilter(q))
    ensures Unfiltered(q) ==> Admits(q, row)
  {
    && (row.kind != WalkIn ==> InDates(q, row.dateOut))
    && (CategoryFilter(q) != [] ==> row.categoryName in CategoryFilter(q))
    && (ByName(q) && (row.kind != WalkIn || CategoryFilter(q) == []) ==> Contains(row.productName, SearchTerm(q)))
  }

  function Selected(t: Tables, q: Query): Sources {
    Collect(t, k => Requested(q, k), row => Admits(q, row))
  }

  datatype Report = Report(totalRestocked: int, transactions: Listing<Txn<string>>)

  /** The sources' rows newest first, dates formatted, one page of them, with the restocked
      quantity of all of them. */
  function Reported(s: Sources, page: int, perPage: int, fmt: Timestamp -> string): (r: Option<Report>)
    ensures r.None? <==> perPage == 0
    ensures r.Some? ==> r.value.totalRestocked == Sum(s.restocks, Quantity)
    ensures r.Some? ==> r.value.transactions.total == |Newest(s)|
    ensures r.Some? && perPage > 0 ==> r.value.transactions.lastPage == CeilDiv(|Newest(s)|, perPage)
    ensures r.Some? && page >= 1 && perPage > 0 ==>
      r.value.transactions.data == Page(FormattedAll(Newest(s), fmt), page, perPage)
    ensures r.Some? && page == 0 && perPage > 0 ==>
      var rows := FormattedAll(Newest(s), fmt);
      r.value.transactions.data == rows[|rows| - Min(perPage, |rows|)..]
  {
    var rows := Newest(s);
    var listing := SlicedListing(FormattedAll(rows, fmt), page, perPage);
    if listing.None? then None
    else Some(Report(Sum(s.restocks, Quantity), listing.value))
  }

  /** The filtered feed, newest first, dates formatted, one page of it, with the restocked
      quantity of the whole selection. */
  function ViewTransaction(t: Tables, q: Query, fmt: Timestamp -> string): (r: Option<Report>)
    ensures r.None? <==> q.perPage == 0
    ensures r.Some? ==> r.value.totalRestocked == Sum(Selected(t, q).restocks, Quantity)
    ensures r.Some? ==> r.value.transactions.total == |Newest(Selected(t, q))|
    ensures r.Some? && q.perPage > 0 ==> r.value.transactions.lastPage == CeilDiv(|Newest(Selected(t, q))|, q.perPage)
    ensures r.Some? && q.page >= 1 && q.perPage > 0 ==>
      r.value.transactions.data == Page(FormattedAll(Newest(Selected(t, q)), fmt), q.page, q.perPage)
    ensures r.Some? && q.page == 0 && q.perPage > 0 ==>
      var rows := FormattedAll(Newest(Selected(t, q)), fmt);
      r.value.transactions.data == rows[|rows| - Min(q.perPage, |rows|)..]
  {
    var s := Selected(t, q);
    Reported(s, q.page, q.perPage, fmt)
  }

  /** Every transaction in the feed is of a requested type, passes the query's filters, and is
      a settled delivery when it is a delivery. */
  lemma SelectionSound(t: Tables, q: Query)
    ensures forall row | row in Newest(Selected(t, q)) ::
      Requested(q, row.kind) && Admits(q, row) && (row.kind == Delivery ==> row.deliveryStatus == Some(Settled))
  {
    var s := Selected(t, q);
    forall row | row in Newest(s)
      ensures Requested(q, row.kind) && Admits(q, row) && (row.kind == Delivery ==> row.deliveryStatus == Some(Settled))
    {
      assert row in multiset(s.Merged());
      if row in s.restocks {
        assert s.restocks != [];
      } else if row in s.deliveries {
        assert s.deliveries != [];
      } else {
        assert row in s.walkIns && s.walkIns != [];
      }
    }
  }

  /** A request that leaves `transaction_types`, `categories`, `date_from`, `date_to` and
      `search` at their defaults (`['all']`, `[]`, none, none, `''`) asks for every kind and sets
      no filter. */
  lemma DefaultsUnfiltered(q: Query)
    requires q.types == ["all"] && q.categories == [] && q.dateFrom.None? && q.dateTo.None? && q.search == ""
    ensures Unfiltered(q) && forall k: Kind :: Requested(q, k)
  {
    assert q.types[0] == "all";
    TrimEmpty(IsPhpWhitespace);
  }

  /** A query that requests every kind and sets no filter lists every row the joins find. */
  lemma UnfilteredListsEverything(t: Tables, q: Query)
    requires Unfiltered(q) && forall k: Kind :: Requested(q, k)
    ensures forall o | o in t.restocks && RestockEntry(t, o).Some? :: RestockEntry(t, o).value in Selected(t, q).restocks
    ensures forall d, pd | && d in t.deliveries && pd in t.saleLines && pd.purchaseOrderId == d.purchaseOrderId
                           && pd.productId == d.productId && DeliveryEntry(t, (d, pd)).Some? ::
              DeliveryEntry(t, (d, pd)).value in Selected(t, q).deliveries
    ensures forall pd | pd in t.saleLines && WalkInEntry(t, pd).Some? :: WalkInEntry(t, pd).value in Selected(t, q).walkIns
  {
    CollectComplete(t, k => Requested(q, k), row => Admits(q, row));
  }

  /** Every walk-in of the feed is a purchase-order line of sale type 2, as the walk-in query's
      `where('po.sale_type_id', 2)` demands. */
  lemma WalkInsFromWalkInSales(t: Tables, q: Query)
    ensures forall row | row in Newest(Selected(t, q)) && row.kind == WalkIn ::
              exists pd | pd in t.saleLines :: pd.saleTypeId == WalkInSaleType && WalkInEntry(t, pd) == Some(row)
  {
    var s := Selected(t, q);
    forall row | row in Newest(s) && row.kind == WalkIn
      ensures exists pd | pd in t.saleLines :: pd.saleTypeId == WalkInSaleType && WalkInEntry(t, pd) == Some(row)
    {
      assert row in multiset(s.Merged());
      assert row !in s.restocks && row !in s.deliveries;
      assert row in s.walkIns;
    }
  }

  /** Two filters that agree on every walk-in entry of the lines keep the same walk-in rows. */
  lemma WalkInRowsPointwise(t: Tables, lines: seq<SaleLine>, keep: Txn<Timestamp> -> bool, keep': Txn<Timestamp> -> bool)
    requires forall pd | pd in lines && WalkInEntry(t, pd).Some? :: keep(WalkInEntry(t, pd).value) == keep'(WalkInEntry(t, pd).value)
    ensures WalkInRows(t, lines, keep) == WalkInRows(t, lines, keep')
  {
    var f := (pd: SaleLine) => Restricted(WalkInEntry(t, pd), keep);
    var g := (pd: SaleLine) => Restricted(WalkInEntry(t, pd), keep');
    assert forall pd | pd in lines :: f(pd) == g(pd);
    FilterMapPointwise(lines, f, g);
  }

  /** Walk-in sales are selected the same whatever the date range. */
  lemma WalkInsIgnoreDates(t: Tables, q: Query, from: Option<int>, to: Option<int>)
    ensures Selected(t, q.(dateFrom := from, dateTo := to)).walkIns == Selected(t, q).walkIns
  {
    var q' := q.(dateFrom := from, dateTo := to);
    assert Requested(q', WalkIn) == Requested(q, WalkIn);
    var keep := (row: Txn<Timestamp>) => Admits(q, row);
    var keep' := (row: Txn<Timestamp>) => Admits(q', row);
    forall pd | pd in t.saleLines && WalkInEntry(t, pd).Some?
      ensures keep(WalkInEntry(t, pd).value) == keep'(WalkInEntry(t, pd).value)
    {
      WalkInAdmitsIgnoreDates(q, from, to, WalkInEntry(t, pd).value);
    }
    WalkInRowsPointwise(t, t.saleLines, keep, keep');
  }

  /** A walk-in row passes the same filters whatever the date range. */
  lemma WalkInAdmitsIgnoreDates(q: Query, from: Option<int>, to: Option<int>, row: Txn<Timestamp>)
    requires row.kind == WalkIn
    ensures Admits(q.(dateFrom := from, dateTo := to), row) == Admits(q, row)
  {
    var q' := q.(dateFrom := from, dateTo := to);
    assert SearchTerm(q') == SearchTerm(q);
    assert CategoryFilter(q') == CategoryFilter(q);
  }

  /** Restocked quantity is 0 when restocks are not requested. */
  lemma NoRestocksNoTotal(t: Tables, q: Query)
    requires !Requested(q, Restock)
    ensures Sum(Selected(t, q).restocks, Quantity) == 0
  {
  }

  // ---------------------------------------------------------------------------------------
  // The price join as the controllers write it

  /** Under the join as written, a settled delivery line in a purchase order with two lines is
      listed twice, once at the price of another product's line. */
  lemma PricingAsWrittenRepeatsDeliveries()
    ensures var d := DeliveryLine(1, 5, 10, 3, 0, Settled, 0);
      var lines := [SaleLine(5, 1, 10, 3, 200, 0), SaleLine(5, 1, 11, 1, 900, 0)];
      && |PricingAsWritten(d, lines)| == 2
      && PricingAsWritten(d, lines)[1].1.productId != d.productId
      && |Pricing(d, lines)| == 1
  {
    var d := DeliveryLine(1, 5, 10, 3, 0, Settled, 0);
    var lines := [SaleLine(5, 1, 10, 3, 200, 0), SaleLine(5, 1, 11, 1, 900, 0)];
    assert lines[1..][1..] == [];
    assert PricingAsWritten(d, lines) == [(d, lines[0]), (d, lines[1])];
    assert Pricing(d, lines) == [(d, lines[0])];
  }
}
