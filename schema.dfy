/** Rows of the inventory database, as values.
    Every table the controllers read is one datatype here; SQL queries become filters and
    projections over sequences or maps of these rows. */
module Schema {

  type ProductId = nat
  type OrderId = nat
  type UserId = nat
  type CategoryId = nat

  /** A `created_at` column: seconds since the epoch (UTC). */
  type Timestamp = int

  const SecondsPerDay: int := 86400

  /** The calendar day of a timestamp, which is what `whereDate` compares. */
  function DayOf(t: Timestamp): int {
    t / SecondsPerDay
  }

  datatype Option<T> = None | Some(value: T)

  /** A row of `products`; prices are integer cents. */
  datatype Product = Product(
    categoryId: CategoryId,
    name: string,
    originalPrice: int,
    quantity: int,
    createdAt: Timestamp)

  /** A row of `categories`; a missing safety stock is the SQL NULL. */
  datatype Category = Category(name: string, safetyStock: Option<int>)

  /** A row of `product_restock_orders`. */
  datatype RestockOrder = RestockOrder(
    productId: ProductId,
    quantity: int,
    userId: UserId,
    createdAt: Timestamp)

  /** A row of `delivery_products` together with the columns of its `deliveries` row
      (purchase order, status, created_at). */
  datatype DeliveryLine = DeliveryLine(
    deliveryId: nat,
    purchaseOrderId: nat,
    productId: ProductId,
    quantity: int,
    damages: int,
    status: string,
    createdAt: Timestamp)

  /** A row of `product_details` together with the columns of its `purchase_orders` row. */
  datatype SaleLine = SaleLine(
    purchaseOrderId: nat,
    saleTypeId: nat,
    productId: ProductId,
    quantity: int,
    price: int,
    createdAt: Timestamp)

  /** The `sale_type_id` of a walk-in purchase order. */
  const WalkInSaleType: nat := 2

  /** The delivery status of a settled delivery. */
  const Settled: string := "S"

  /** The three transaction kinds of a feed; their tags are "Restock", "Delivery" and "Walk-In". */
  datatype Kind = Restock | Delivery | WalkIn {
    function Tag(): string {
      match this
      case Restock => "Restock"
      case Delivery => "Delivery"
      case WalkIn => "Walk-In"
    }
  }
}
