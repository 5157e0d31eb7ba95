/** The reorder report (ProductRestockController.reorderLevel): a product needs reordering when
    its stock is at or below its reorder level, the usage expected over the lead time plus the
    safety stock. Usage is the quantity delivered in the last 30 days spread over 30 days. The
    rule is decided in integers, by multiplying both sides by 30. */
module Reorder {
  import opened Schema
  import opened Collections

  const LeadTimeDays: int := 14
  const UsageWindowDays: int := 30
  const DefaultSafetyStock: int := 70

  /** The delivery statuses that count as successful. */
  predicate Successful(status: string) {
    status == "OD" || status == "P" || status == "S"
  }

  /** A delivery line of product p with a successful status, created at most 30 days before
      now. */
  predicate CountsTowardUsage(d: DeliveryLine, p: ProductId, now: Timestamp) {
    d.productId == p && Successful(d.status) && d.createdAt >= now - UsageWindowDays * SecondsPerDay
  }

  /** `sum(delivery_products.quantity)` over the lines that count toward p's usage: nothing
      when no line counts, and never negative when no counted quantity is. */
  function DeliveredRecently(deliveries: seq<DeliveryLine>, p: ProductId, now: Timestamp): (r: int)
    ensures (forall d | d in deliveries :: !CountsTowardUsage(d, p, now)) ==> r == 0
    ensures (forall d | d in deliveries && CountsTowardUsage(d, p, now) :: d.quantity >= 0) ==> r >= 0
  {
    var counted := (d: DeliveryLine) => if CountsTowardUsage(d, p, now) then d.quantity else 0;
    assert (forall d | d in deliveries :: !CountsTowardUsage(d, p, now)) ==> Sum(deliveries, counted) == 0 by {
      if forall d | d in deliveries :: !CountsTowardUsage(d, p, now) {
        SumZero(deliveries, counted);
      }
    }
    assert (forall d | d in deliveries && CountsTowardUsage(d, p, now) :: d.quantity >= 0) ==> Sum(deliveries, counted) >= 0 by {
      if forall d | d in deliveries && CountsTowardUsage(d, p, now) :: d.quantity >= 0 {
        SumNonNegative(deliveries, counted);
      }
    }
    Sum(deliveries, counted)
  }

  /** The usage sum line by line: one line contributes its quantity exactly when it counts
      toward p's usage, and the sum over two batches of lines is the sum of their sums. With
      the empty case in `DeliveredRecently`'s contract this fixes the value for every list. */
  lemma {:induction false} DeliveredRecentlyByLine(a: seq<DeliveryLine>, b: seq<DeliveryLine>, d: DeliveryLine,
                                                   p: ProductId, now: Timestamp)
    ensures DeliveredRecently([d], p, now) == if CountsTowardUsage(d, p, now) then d.quantity else 0
    ensures DeliveredRecently(a + b, p, now) == DeliveredRecently(a, p, now) + DeliveredRecently(b, p, now)
  {
    var counted := (d: DeliveryLine) => if CountsTowardUsage(d, p, now) then d.quantity else 0;
    assert [d][1..] == [];
    assert Sum([d], counted) == counted(d) + Sum([], counted);
    SumAppend(a, b, counted);
  }

  /** The SQL sum has no order: the usage is the same for any ordering of the lines. */
  lemma DeliveredRecentlyUnordered(a: seq<DeliveryLine>, b: seq<DeliveryLine>, p: ProductId, now: Timestamp)
    requires multiset(a) == multiset(b)
    ensures DeliveredRecently(a, p, now) == DeliveredRecently(b, p, now)
  {
    var counted := (d: DeliveryLine) => if CountsTowardUsage(d, p, now) then d.quantity else 0;
    SumPermutation(a, b, counted);
  }

  /** `$product->category->safety_stock ?? 70`: the category's safety stock, or 70 when the
      product has no category or the category none. */
  function SafetyStock(categories: map<CategoryId, Category>, product: Product): (r: int)
    ensures product.categoryId in categories && categories[product.categoryId].safetyStock.Some? ==>
              r == categories[product.categoryId].safetyStock.value
    ensures !(product.categoryId in categories && categories[product.categoryId].safetyStock.Some?) ==>
              r == DefaultSafetyStock
  {
    if product.categoryId in categories && categories[product.categoryId].safetyStock.Some?
    then categories[product.categoryId].safetyStock.value
    else DefaultSafetyStock
  }

  /** `$delivered / 30 * 14 + $safetyStock`, exactly. */
  ghost function ReorderLevel(delivered: int, safety: int): real {
    (delivered as real / UsageWindowDays as real) * LeadTimeDays as real + safety as real
  }

  /** `quantity <= reorderLevel`, decided in integers by multiplying both sides by 30: the rule
      flags exactly the quantities at or below the exact reorder level. */
  predicate NeedsReorder(quantity: int, delivered: int, safety: int)
    ensures NeedsReorder(quantity, delivered, safety) <==> quantity as real <= ReorderLevel(delivered, safety)
  {
    assert ReorderLevel(delivered, safety) * 30.0 == (14 * delivered + 30 * safety) as real;
    assert (30 * quantity) as real == quantity as real * 30.0;
    UsageWindowDays * quantity <= LeadTimeDays * delivered + UsageWindowDays * safety
  }

  /** `round($reorderLevel, 2)` in hundredths: the integer nearest to 100 times the level, which
      is (1400 * delivered + 3000 * safety) / 30 and so never halfway between two integers. */
  function LevelInHundredths(delivered: int, safety: int): (r: int)
    ensures 3 * r - 1 <= 140 * delivered + 300 * safety <= 3 * r + 1
  {
    (140 * delivered + 300 * safety + 1) / 3
  }

  lemma LevelInHundredthsIsNearest(delivered: int, safety: int)
    ensures var r := LevelInHundredths(delivered, safety);
      -0.5 < r as real - 100.0 * ReorderLevel(delivered, safety) < 0.5
  {
    var r := LevelInHundredths(delivered, safety);
    var n := 140 * delivered + 300 * safety;
    assert 100.0 * ReorderLevel(delivered, safety) == n as real / 3.0;
    assert (3 * r - n) as real <= 1.0 && (3 * r - n) as real >= -1.0;
  }

  /** A product with less stock needs reordering whenever one with more does; more recent
      deliveries or a larger safety stock never clear a flag. */
  lemma NeedsReorderMonotone(q: int, q': int, d: int, d': int, s: int, s': int)
    requires q' <= q && d <= d' && s <= s'
    requires NeedsReorder(q, d, s)
    ensures NeedsReorder(q', d', s')
  {
  }

  /** One entry of the report. */
  datatype Entry = Entry(
    productId: ProductId,
    productName: string,
    currentQuantity: int,
    categoryName: string,
    reorderLevel: int,        // hundredths
    needsReorder: bool)

  function Assessed(categories: map<CategoryId, Category>, deliveries: seq<DeliveryLine>, now: Timestamp,
                    row: (ProductId, Product)): (e: Entry)
    ensures e.productId == row.0 && e.productName == row.1.name && e.currentQuantity == row.1.quantity
    ensures e.categoryName == if row.1.categoryId in categories then categories[row.1.categoryId].name else "N/A"
    ensures e.reorderLevel == LevelInHundredths(DeliveredRecently(deliveries, row.0, now), SafetyStock(categories, row.1))
    ensures e.needsReorder <==>
      NeedsReorder(row.1.quantity, DeliveredRecently(deliveries, row.0, now), SafetyStock(categories, row.1))
  {
    var (id, product) := row;
    var delivered := DeliveredRecently(deliveries, id, now);
    var safety := SafetyStock(categories, product);
    var categoryName := if product.categoryId in categories then categories[product.categoryId].name else "N/A";
    Entry(id, product.name, product.quantity, categoryName, LevelInHundredths(delivered, safety),
          NeedsReorder(product.quantity, delivered, safety))
  }

  function Stock(row: (ProductId, Product)): int {
    row.1.quantity
  }

  function LessStock(row: (ProductId, Product)): int {
    -row.1.quantity
  }

  function CurrentQuantity(e: Entry): int {
    e.currentQuantity
  }

  /** `orderBy('quantity', 'asc')`: the products, least stock first. */
  function ByStock(products: seq<(ProductId, Product)>): (r: seq<(ProductId, Product)>)
    ensures multiset(r) == multiset(products)
    ensures AscendingBy(r, Stock)
  {
    var r := SortDesc(products, LessStock);
    assert forall i, j | 0 <= i < j < |r| :: LessStock(r[i]) >= LessStock(r[j]);
    r
  }

  /** A product's entry when it needs reordering. */
  function Flag(categories: map<CategoryId, Category>, deliveries: seq<DeliveryLine>, now: Timestamp,
                row: (ProductId, Product)): (r: Option<Entry>)
    ensures r.Some? <==> Assessed(categories, deliveries, now, row).needsReorder
    ensures r.Some? ==> r.value == Assessed(categories, deliveries, now, row)
  {
    var e := Assessed(categories, deliveries, now, row);
    if e.needsReorder then Some(e) else None
  }

  /** The entries of the products that need reordering, least stock first. */
  function Flagged(products: seq<(ProductId, Product)>, categories: map<CategoryId, Category>,
                   deliveries: seq<DeliveryLine>, now: Timestamp): (r: seq<Entry>)
    ensures |r| <= |products|
    ensures forall e | e in r :: e.needsReorder
  {
    var sorted := ByStock(products);
    assert |sorted| == |products| by {
      assert |multiset(sorted)| == |multiset(products)|;
    }
    FilterMap(sorted, row => Flag(categories, deliveries, now, row))
  }

  /** The report lists exactly the products the rule flags, least stock first. */
  lemma FlaggedExactly(products: seq<(ProductId, Product)>, categories: map<CategoryId, Category>,
                       deliveries: seq<DeliveryLine>, now: Timestamp)
    ensures var flagged := Flagged(products, categories, deliveries, now);
      && (forall e | e in flagged :: exists row | row in products :: Assessed(categories, deliveries, now, row) == e)
      && (forall row | row in products && Assessed(categories, deliveries, now, row).needsReorder ::
            Assessed(categories, deliveries, now, row) in flagged)
      && AscendingBy(flagged, CurrentQuantity)
  {
    var sorted := ByStock(products);
    var keep := row => Flag(categories, deliveries, now, row);
    forall row | row in products ensures row in sorted {
      assert row in multiset(products);
    }
    forall e | e in FilterMap(sorted, keep)
      ensures exists row | row in products :: Assessed(categories, deliveries, now, row) == e
    {
      var row :| row in sorted && keep(row) == Some(e);
      assert row in multiset(products);
      assert row in products && Assessed(categories, deliveries, now, row) == e;
    }
    FilterMapAscending(sorted, keep, Stock, CurrentQuantity);
  }

  datatype Report = Report(listing: Listing<Entry>, reorderCount: nat)

  /** The flagged products, one `forPage` page of them, with their count. A zero page size has
      no report (the division in `ceil($total / $limit)` fails). */
  function ReorderLevelReport(products: seq<(ProductId, Product)>, categories: map<CategoryId, Category>,
                              deliveries: seq<DeliveryLine>, now: Timestamp, page: int, limit: int): (r: Option<Report>)
    ensures r.None? <==> limit == 0
    ensures r.Some? ==> r.value.reorderCount == r.value.listing.total == |Flagged(products, categories, deliveries, now)|
    ensures r.Some? ==> forall e | e in r.value.listing.data :: e.needsReorder
    ensures r.Some? && limit > 0 ==>
      r.value.listing.lastPage == CeilDiv(|Flagged(products, categories, deliveries, now)|, limit)
    ensures r.Some? && page >= 1 && limit > 0 ==>
      r.value.listing.data == Page(Flagged(products, categories, deliveries, now), page, limit)
    ensures r.Some? && page <= 1 && limit > 0 ==>
      r.value.listing.data == Page(Flagged(products, categories, deliveries, now), 1, limit)
  {
    var flagged := Flagged(products, categories, deliveries, now);
    FlaggedExactly(products, categories, deliveries, now);
    var listing := PagedListing(flagged, page, limit);
    if listing.None? then None
    else Some(Report(listing.value, |flagged|))
  }

  /** The example of the rule: 420 units delivered in the last 30 days with the default safety
      stock give a level of 14 * 420 / 30 + 70 = 266, so 266 units in stock need reordering and
      267 do not. */
  lemma WorkedExample()
    ensures LevelInHundredths(420, DefaultSafetyStock) == 26600
    ensures NeedsReorder(266, 420, DefaultSafetyStock)
    ensures !NeedsReorder(267, 420, DefaultSafetyStock)
  {
  }
}
