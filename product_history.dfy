/** One product's movement history (ProductRestockController.productTransactions): its restock
    orders, settled deliveries and walk-in sales, optionally limited to a recent period and to
    one transaction type, newest first, paginated, with the restocked quantity of the listed
    restocks. */
module ProductHistory {
  import opened Schema
  import opened Collections
  import opened TransactionFeed

  /** One row of the history. Columns a query does not select are None: restocks carry no
      product id, only deliveries carry a delivery id, damages and a status. */
  datatype Movement = Movement(
    deliveryId: Option<nat>,
    productId: Option<ProductId>,
    quantity: int,
    damages: Option<int>,
    price: Option<int>,
    totalValue: int,
    date: Timestamp,
    kind: Kind,
    deliveryStatus: Option<string>)

  function Date(m: Movement): int {
    m.date
  }

  function MovedQuantity(m: Movement): int {
    m.quantity
  }

  /** The start of the period `timePeriod` names: 30, 60 or 90 days before now; any other
      value means no limit. */
  function DateLimit(timePeriod: string, now: Timestamp): (r: Option<Timestamp>)
    ensures r.Some? <==> timePeriod in {"30_days", "60_days", "90_days"}
    ensures timePeriod == "30_days" ==> r == Some(now - 30 * SecondsPerDay)
    ensures timePeriod == "60_days" ==> r == Some(now - 60 * SecondsPerDay)
    ensures timePeriod == "90_days" ==> r == Some(now - 90 * SecondsPerDay)
  {
    match timePeriod
    case "30_days" => Some(now - 30 * SecondsPerDay)
    case "60_days" => Some(now - 60 * SecondsPerDay)
    case "90_days" => Some(now - 90 * SecondsPerDay)
    case _ => None
  }

  predicate Recent(limit: Option<Timestamp>, at: Timestamp) {
    limit.Some? ==> at >= limit.value
  }

  /** `$transactionType === 'all' || $transactionType === $tag` (a strict comparison). */
  predicate Wanted(transactionType: string, k: Kind) {
    transactionType == "all" || transactionType == k.Tag()
  }

  /** A restock order of product p placed within the period, valued at p's original price. */
  function RestockMovement(price: int, p: ProductId, limit: Option<Timestamp>, o: RestockOrder): (r: Option<Movement>)
    ensures r.Some? <==> o.productId == p && Recent(limit, o.createdAt)
    ensures r.Some? ==> && r.value.kind == Restock && r.value.quantity == o.quantity
                        && r.value.totalValue == o.quantity * price && r.value.date == o.createdAt
    ensures r.Some? ==> && r.value.productId.None? && r.value.deliveryId.None? && r.value.damages.None?
                        && r.value.price.None? && r.value.deliveryStatus.None?
  {
    if o.productId == p && Recent(limit, o.createdAt)
    then Some(Movement(None, None, o.quantity, None, None, o.quantity * price, o.createdAt, Restock, None))
    else None
  }

  /** A settled delivery line of product p within the period, valued at its purchase-order
      line's price. */
  function DeliveryMovement(p: ProductId, limit: Option<Timestamp>, pair: (DeliveryLine, SaleLine)): (r: Option<Movement>)
    ensures r.Some? <==> pair.0.productId == p && pair.0.status == Settled && Recent(limit, pair.0.createdAt)
    ensures r.Some? ==> && r.value.kind == Delivery && r.value.productId == Some(p)
                        && r.value.deliveryStatus == Some(Settled) && r.value.date == pair.0.createdAt
                        && r.value.totalValue == pair.0.quantity * pair.1.price
    ensures r.Some? ==> && r.value.deliveryId == Some(pair.0.deliveryId) && r.value.quantity == pair.0.quantity
                        && r.value.damages == Some(pair.0.damages) && r.value.price == Some(pair.1.price)
  {
    var (d, pd) := pair;
    if d.productId == p && d.status == Settled && Recent(limit, d.createdAt)
    then Some(Movement(Some(d.deliveryId), Some(d.productId), d.quantity, Some(d.damages), Some(pd.price),
                       d.quantity * pd.price, d.createdAt, Delivery, Some(d.status)))
    else None
  }

  /** A walk-in sale line of product p within the period, valued at its own price. */
  function WalkInMovement(p: ProductId, limit: Option<Timestamp>, pd: SaleLine): (r: Option<Movement>)
    ensures r.Some? <==> pd.productId == p && pd.saleTypeId == WalkInSaleType && Recent(limit, pd.createdAt)
    ensures r.Some? ==> && r.value.kind == WalkIn && r.value.productId == Some(p)
                        && r.value.date == pd.createdAt && r.value.totalValue == pd.quantity * pd.price
    ensures r.Some? ==> && r.value.quantity == pd.quantity && r.value.price == Some(pd.price)
                        && r.value.deliveryId.None? && r.value.damages.None? && r.value.deliveryStatus.None?
  {
    if pd.productId == p && pd.saleTypeId == WalkInSaleType && Recent(limit, pd.createdAt)
    then Some(Movement(None, Some(pd.productId), pd.quantity, None, Some(pd.price), pd.quantity * pd.price,
                       pd.createdAt, WalkIn, None))
    else None
  }

  /** The rows of each source, each fetched only when the transaction type asks for it. */
  datatype Movements = Movements(restocks: seq<Movement>, deliveries: seq<Movement>, walkIns: seq<Movement>) {
    function Merged(): seq<Movement> {
      restocks + deliveries + walkIns
    }
  }

  function Gathered(t: Tables, p: ProductId, transactionType: string, limit: Option<Timestamp>): (r: Movements)
    requires p in t.products
    ensures forall m | m in r.restocks :: m.kind == Restock && Recent(limit, m.date)
    ensures forall m | m in r.restocks :: exists o | o in t.restocks ::
      o.productId == p && RestockMovement(t.products[p].originalPrice, p, limit, o) == Some(m)
    ensures forall m | m in r.deliveries ::
      m.kind == Delivery && m.productId == Some(p) && m.deliveryStatus == Some(Settled) && Recent(limit, m.date)
    ensures forall m | m in r.deliveries :: exists pair | pair in PricedDeliveries(t.deliveries, t.saleLines) ::
      DeliveryMovement(p, limit, pair) == Some(m)
    ensures forall m | m in r.walkIns :: m.kind == WalkIn && m.productId == Some(p) && Recent(limit, m.date)
    ensures forall i, j | 0 <= i < j < |r.deliveries| :: r.deliveries[i] != r.deliveries[j]
    ensures !Wanted(transactionType, Restock) ==> r.restocks == []
    ensures !Wanted(transactionType, Delivery) ==> r.deliveries == []
    ensures !Wanted(transactionType, WalkIn) ==> r.walkIns == []
  {
    var price := t.products[p].originalPrice;
    Movements(
      if Wanted(transactionType, Restock)
        then FilterMap(t.restocks, o => RestockMovement(price, p, limit, o)) else [],
      if Wanted(transactionType, Delivery)
        then Distinct(FilterMap(PricedDeliveries(t.deliveries, t.saleLines), pair => DeliveryMovement(p, limit, pair)))
        else [],
      if Wanted(transactionType, WalkIn)
        then FilterMap(t.saleLines, pd => WalkInMovement(p, limit, pd)) else [])
  }

  /** Each of p's restocks within the period is listed when restocks are wanted. */
  lemma GatheredRestocksComplete(t: Tables, p: ProductId, transactionType: string, limit: Option<Timestamp>, o: RestockOrder)
    requires p in t.products && Wanted(transactionType, Restock)
    requires o in t.restocks && o.productId == p && Recent(limit, o.createdAt)
    ensures RestockMovement(t.products[p].originalPrice, p, limit, o).value in Gathered(t, p, transactionType, limit).restocks
  {
  }

  /** Each settled delivery line of p within the period is listed, at the price of each line
      of its purchase order for p, when deliveries are wanted. */
  lemma GatheredDeliveriesComplete(t: Tables, p: ProductId, transactionType: string, limit: Option<Timestamp>,
                                   d: DeliveryLine, pd: SaleLine)
    requires p in t.products && Wanted(transactionType, Delivery)
    requires d in t.deliveries && d.productId == p && d.status == Settled && Recent(limit, d.createdAt)
    requires pd in t.saleLines && pd.purchaseOrderId == d.purchaseOrderId && pd.productId == p
    ensures DeliveryMovement(p, limit, (d, pd)).value in Gathered(t, p, transactionType, limit).deliveries
  {
    PricedDeliveriesComplete(t.deliveries, t.saleLines, d, pd);
    var f := (pair: (DeliveryLine, SaleLine)) => DeliveryMovement(p, limit, pair);
    assert f((d, pd)).Some?;
  }

  /** Each walk-in sale line of p within the period is listed when walk-ins are wanted. */
  lemma GatheredWalkInsComplete(t: Tables, p: ProductId, transactionType: string, limit: Option<Timestamp>, pd: SaleLine)
    requires p in t.products && Wanted(transactionType, WalkIn)
    requires pd in t.saleLines && pd.productId == p && pd.saleTypeId == WalkInSaleType && Recent(limit, pd.createdAt)
    ensures WalkInMovement(p, limit, pd).value in Gathered(t, p, transactionType, limit).walkIns
  {
  }

  /** `sortByDesc('date')`: newest first, a permutation of the merged rows. */
  function Latest(s: Movements): (r: seq<Movement>)
    ensures multiset(r) == multiset(s.Merged())
    ensures DescendingBy(r, Date)
  {
    SortDesc(s.Merged(), Date)
  }

  /** Movements on the same date keep the source order: restocks, deliveries, walk-ins. */
  lemma SameDateKeepsSourceOrder(s: Movements, date: int)
    ensures WithKey(Latest(s), Date, date)
         == WithKey(s.restocks, Date, date) + WithKey(s.deliveries, Date, date) + WithKey(s.walkIns, Date, date)
  {
    SortDescStable(s.Merged(), Date, date);
    WithKeyAppend(s.restocks + s.deliveries, s.walkIns, Date, date);
    WithKeyAppend(s.restocks, s.deliveries, Date, date);
  }

  datatype History = History(
    productName: string,
    productCreatedAt: Timestamp,
    remainingQuantity: int,
    totalRestocked: int,
    productId: ProductId,
    transactions: Listing<Movement>)

  /** The response: the history, 404 for a missing product, 500 when the page size is zero
      (the division in `ceil($total / $perPage)` fails). */
  datatype Response = Shown(history: History) | ProductNotFound | ServerError

  /** The response for an existing product: one page of its movements (newest first), with the
      restocked quantity. */
  function Answered(product: Product, p: ProductId, rows: seq<Movement>, restocked: int, page: int, perPage: int): (r: Response)
    ensures r != ProductNotFound
    ensures r == ServerError <==> perPage == 0
    ensures r.Shown? ==> && r.history.productId == p && r.history.remainingQuantity == product.quantity
                         && r.history.totalRestocked == restocked && r.history.transactions.total == |rows|
    ensures r.Shown? ==> r.history.productName == product.name && r.history.productCreatedAt == product.createdAt
    ensures r.Shown? && perPage > 0 ==> r.history.transactions.lastPage == CeilDiv(|rows|, perPage)
    ensures r.Shown? && page >= 1 && perPage > 0 ==> r.history.transactions.data == Page(rows, page, perPage)
    ensures r.Shown? && page == 0 && perPage > 0 ==> r.history.transactions.data == rows[|rows| - Min(perPage, |rows|)..]
  {
    var listing := SlicedListing(rows, page, perPage);
    if listing.None? then ServerError
    else
      Shown(History(product.name, product.createdAt, product.quantity, restocked, p, listing.value))
  }

  function ProductTransactions(t: Tables, p: ProductId, transactionType: string, timePeriod: string,
                               now: Timestamp, page: int, perPage: int): (r: Response)
    ensures r == ProductNotFound <==> p !in t.products
    ensures r == ServerError <==> p in t.products && perPage == 0
    ensures r.Shown? ==> && r.history.productId == p
                         && r.history.remainingQuantity == t.products[p].quantity
                         && r.history.totalRestocked
                              == Sum(Gathered(t, p, transactionType, DateLimit(timePeriod, now)).restocks, MovedQuantity)
    ensures r.Shown? ==> r.history.productName == t.products[p].name
    ensures r.Shown? ==> r.history.transactions.total == |Latest(Gathered(t, p, transactionType, DateLimit(timePeriod, now)))|
    ensures r.Shown? && perPage > 0 ==>
      r.history.transactions.lastPage == CeilDiv(|Latest(Gathered(t, p, transactionType, DateLimit(timePeriod, now)))|, perPage)
    ensures r.Shown? && page >= 1 && perPage > 0 ==>
      r.history.transactions.data == Page(Latest(Gathered(t, p, transactionType, DateLimit(timePeriod, now))), page, perPage)
    ensures r.Shown? && page == 0 && perPage > 0 ==>
      var rows := Latest(Gathered(t, p, transactionType, DateLimit(timePeriod, now)));
      r.history.transactions.data == rows[|rows| - Min(perPage, |rows|)..]
  {
    if p !in t.products then ProductNotFound
    else
      var s := Gathered(t, p, transactionType, DateLimit(timePeriod, now));
      Answered(t.products[p], p, Latest(s), Sum(s.restocks, MovedQuantity), page, perPage)
  }

  /** Every listed movement is of a wanted type, within the period, and, when it is a delivery
      or a walk-in, of product p; deliveries are settled. */
  lemma HistorySound(t: Tables, p: ProductId, transactionType: string, limit: Option<Timestamp>)
    requires p in t.products
    ensures forall m | m in Latest(Gathered(t, p, transactionType, limit)) ::
      && Wanted(transactionType, m.kind) && Recent(limit, m.date)
      && (m.kind != Restock ==> m.productId == Some(p))
      && (m.kind == Delivery ==> m.deliveryStatus == Some(Settled))
  {
    var s := Gathered(t, p, transactionType, limit);
    forall m | m in Latest(s)
      ensures && Wanted(transactionType, m.kind) && Recent(limit, m.date)
              && (m.kind != Restock ==> m.productId == Some(p))
              && (m.kind == Delivery ==> m.deliveryStatus == Some(Settled))
    {
      assert m in multiset(s.Merged());
      if m in s.restocks {
        assert s.restocks != [];
      } else if m in s.deliveries {
        assert s.deliveries != [];
      } else {
        assert m in s.walkIns && s.walkIns != [];
      }
    }
  }

  /** Every walk-in of the history is one of p's purchase-order lines of sale type 2. */
  lemma WalkInsFromWalkInSales(t: Tables, p: ProductId, transactionType: string, limit: Option<Timestamp>)
    requires p in t.products
    ensures forall m | m in Latest(Gathered(t, p, transactionType, limit)) && m.kind == WalkIn ::
              exists pd | pd in t.saleLines :: && pd.productId == p && pd.saleTypeId == WalkInSaleType
                                               && WalkInMovement(p, limit, pd) == Some(m)
  {
    var s := Gathered(t, p, transactionType, limit);
    forall m | m in Latest(s) && m.kind == WalkIn
      ensures exists pd | pd in t.saleLines :: && pd.productId == p && pd.saleTypeId == WalkInSaleType
                                               && WalkInMovement(p, limit, pd) == Some(m)
    {
      assert m in multiset(s.Merged());
      assert m !in s.restocks && m !in s.deliveries;
      assert Wanted(transactionType, WalkIn) && m in s.walkIns;
      var pd :| pd in t.saleLines && WalkInMovement(p, limit, pd) == Some(m);
      assert pd.productId == p && pd.saleTypeId == WalkInSaleType;
    }
  }

  /** The restocked total is what the listed movements restock, whatever their order, and
      nothing when restocks are not wanted. */
  lemma RestockedTotalOfHistory(t: Tables, p: ProductId, transactionType: string, limit: Option<Timestamp>)
    requires p in t.products
    ensures var s := Gathered(t, p, transactionType, limit);
      && Sum(Latest(s), (m: Movement) => if m.kind == Restock then m.quantity else 0) == Sum(s.restocks, MovedQuantity)
      && (!Wanted(transactionType, Restock) ==> Sum(s.restocks, MovedQuantity) == 0)
  {
    var s := Gathered(t, p, transactionType, limit);
    var share := (m: Movement) => if m.kind == Restock then m.quantity else 0;
    SumPermutation(Latest(s), s.Merged(), share);
    SumAppend(s.restocks + s.deliveries, s.walkIns, share);
    SumAppend(s.restocks, s.deliveries, share);
    SumPointwise(s.restocks, share, MovedQuantity);
    SumZero(s.deliveries, share);
    SumZero(s.walkIns, share);
  }
}
