/**
 * The entities of the marketplace (store/models.py), as values.
 *
 * Prices are two-decimal fixed-point amounts and are held as integer cents;
 * the product rating (two decimals, 0.00 to 5.00) is held in hundredths.
 */
module Models {

  type UserId = nat
  type ProductId = nat
  type CategoryId = nat

  /** An amount of money in cents. */
  type Cents = int

  datatype Role = Seller | Buyer

  /** The custom user: its role decides who may list products, its staff flags who may approve them. */
  datatype User = User(id: UserId, username: string, role: Role, isStaff: bool, isSuperuser: bool)

  datatype StockStatus = InStock | OutOfStock

  /** The approval gate of a listing; the model declares it, the views use it. */
  datatype ApprovalStatus = Pending | Approved | Rejected

  /** The closed enumeration of order statuses. */
  datatype OrderStatus = OrderPending | Confirmed | Shipped | Delivered | Cancelled

  /** The only payment method offered. */
  datatype PaymentMethod = CashOnDelivery

  const DefaultOrderStatus: OrderStatus := OrderPending
  const DefaultPaymentMethod: PaymentMethod := CashOnDelivery

  /** Largest rating, 5.00, in hundredths. */
  const MaxRating: int := 500

  datatype Product = Product(
    name: string,
    price: Cents,
    quantity: int,
    stockStatus: StockStatus,
    category: CategoryId,
    seller: UserId,
    rating: int,
    totalSells: int,
    featured: bool,
    approval: ApprovalStatus)

  /** The field constraints of a product: non-negative price, stock and sales, rating within [0, 5]. */
  predicate ProductValid(p: Product)
  {
    p.price >= 0 && p.quantity >= 0 && p.totalSells >= 0 && 0 <= p.rating <= MaxRating
  }

  /**
   * A product as created from its required fields, every other field at its
   * declared default; a new listing starts pending.
   */
  function DefaultProduct(name: string, price: Cents, category: CategoryId, seller: UserId): (p: Product)
    requires price >= 0
    ensures ProductValid(p)
    ensures p.quantity == 0 && p.totalSells == 0 && p.rating == 0
    ensures p.stockStatus == InStock && !p.featured && p.approval == Pending
    ensures p.name == name && p.price == price && p.category == category && p.seller == seller
  {
    Product(name, price, 0, InStock, category, seller, 0, 0, false, Pending)
  }

  /** A cart line: `quantity` copies of `product` in the cart of `user`. */
  datatype CartLine = CartLine(user: UserId, product: ProductId, quantity: int)

  /** Two cart or wishlist entries with the same owner and product. */
  predicate SameKey(a: CartLine, b: CartLine)
  {
    a.user == b.user && a.product == b.product
  }

  /** The uniqueness constraint of the cart: one line per (user, product). */
  predicate KeysUnique(cart: seq<CartLine>)
  {
    forall j, k | 0 <= j < k < |cart| :: !SameKey(cart[j], cart[k])
  }

  /** The table constraints of the cart: quantities of at least one, one line per (user, product). */
  predicate CartValid(cart: seq<CartLine>)
  {
    (forall j | 0 <= j < |cart| :: cart[j].quantity >= 1) && KeysUnique(cart)
  }

  datatype WishlistEntry = WishlistEntry(user: UserId, product: ProductId)

  /** The table constraint of the wishlist: one entry per (user, product). */
  predicate WishlistValid(wishlist: seq<WishlistEntry>)
  {
    forall j, k | 0 <= j < k < |wishlist| :: wishlist[j] != wishlist[k]
  }

  /** A frozen line of an order: the price is a copy, not a reference to the product. */
  datatype OrderItem = OrderItem(product: ProductId, quantity: int, price: Cents)

  datatype Order = Order(
    user: UserId,
    number: string,
    address: string,
    pinCode: string,
    payment: PaymentMethod,
    total: Cents,
    status: OrderStatus,
    items: seq<OrderItem>)

  /** A buyer's review of a product; at most one per (user, product). */
  datatype Review = Review(user: UserId, product: ProductId, rating: int, text: string)

  /** A cart line that cannot be filled: the product and the quantity left of it. */
  datatype Shortage = Shortage(product: ProductId, name: string, available: int)

  /** Why a view refuses a request; each refusal leaves the store unchanged. */
  datatype StoreError =
    | PermissionDenied      // role or staff check failed
    | NotFound              // get_object_or_404
    | InvalidForm           // the submitted form does not validate
    | MissingImages         // a new listing without any image
    | NotApproved           // adding a product that is not approved to a cart
    | OwnProduct            // adding one's own product to a cart
    | InvalidQuantity       // adding a quantity below one to a cart
    | StorageRejected       // the database refuses a negative quantity
    | NotEligible           // reviewing without an eligible purchase
    | EmptyCart             // checking out an empty cart
    | SelfPurchase          // checking out a cart holding one's own product
    | MissingDetails        // checking out without address or pin code
    | InsufficientStock(shortages: seq<Shortage>)

  /** The price of a cart line, read from the product's current price. */
  function LineTotal(line: CartLine, p: Product): (total: Cents)
    ensures line.quantity >= 0 && p.price >= 0 ==> total >= 0
    ensures line.quantity == 0 || p.price == 0 ==> total == 0
  {
    line.quantity * p.price
  }

  /** The price of an order item, read from its own frozen price. */
  function ItemTotal(item: OrderItem): (total: Cents)
    ensures item.quantity >= 0 && item.price >= 0 ==> total >= 0
    ensures item.quantity == 0 || item.price == 0 ==> total == 0
  {
    item.quantity * item.price
  }

  /** Repricing a product moves the total of a cart line by quantity times the price difference. */
  lemma LineTotalFollowsPrice(line: CartLine, p: Product, newPrice: Cents)
    ensures LineTotal(line, p.(price := newPrice)) - LineTotal(line, p) == line.quantity * (newPrice - p.price)
  {
    calc {
      LineTotal(line, p.(price := newPrice)) - LineTotal(line, p);
      line.quantity * newPrice - line.quantity * p.price;
      line.quantity * (newPrice - p.price);
    }
  }

  /** An order item keeps its total whatever the product it came from now costs. */
  lemma ItemTotalIgnoresProduct(item: OrderItem, line: CartLine, p: Product, newPrice: Cents)
    requires item.product == line.product && item.quantity == line.quantity && item.price == p.price
    ensures ItemTotal(item) == LineTotal(line, p)
    ensures ItemTotal(item) == LineTotal(line, p.(price := newPrice)) <==> line.quantity * (newPrice - p.price) == 0
  {
    LineTotalFollowsPrice(line, p, newPrice);
  }
}
