/**
 * The listing life cycle and the review gate of store/views.py: what the
 * product form does to a product (add_product, edit_product), who may see a
 * product (product_detail), who may review it, and how a review is saved.
 */
module Catalog {
  import opened Wrappers
  import opened Models

  /** The fields of the product form. */
  datatype ProductForm = ProductForm(
    name: string, price: Cents, quantity: int, stockStatus: StockStatus, category: CategoryId, featured: bool)

  /** The form validates: a non-negative price and a non-negative quantity. */
  predicate FormValid(form: ProductForm)
  {
    form.price >= 0 && form.quantity >= 0
  }

  /** `add_product`: the form's fields, the seller, and a pending review. */
  function NewListing(form: ProductForm, seller: UserId): (p: Product)
    requires FormValid(form)
    ensures ProductValid(p)
    ensures p.approval == Pending && p.seller == seller
    ensures p.totalSells == 0 && p.rating == 0
    ensures p.name == form.name && p.price == form.price && p.quantity == form.quantity
    ensures p.stockStatus == form.stockStatus && p.category == form.category && p.featured == form.featured
  {
    Product(form.name, form.price, form.quantity, form.stockStatus, form.category, seller, 0, 0, form.featured, Pending)
  }

  /** `edit_product`: the form's fields over the product, and its review reset to pending. */
  function Edited(p: Product, form: ProductForm): (r: Product)
    requires ProductValid(p) && FormValid(form)
    ensures ProductValid(r)
    ensures r.approval == Pending
    ensures r.seller == p.seller && r.totalSells == p.totalSells && r.rating == p.rating
    ensures r.name == form.name && r.price == form.price && r.quantity == form.quantity
    ensures r.stockStatus == form.stockStatus && r.category == form.category && r.featured == form.featured
  {
    p.(name := form.name, price := form.price, quantity := form.quantity, stockStatus := form.stockStatus,
       category := form.category, featured := form.featured, approval := Pending)
  }

  /**
   * `product_detail`: a seller sees their own product whatever its status;
   * everyone else, signed in or not, sees only approved products.
   */
  predicate CanView(viewer: Option<User>, p: Product)
  {
    if viewer.Some? && viewer.value.role == Seller then
      p.seller == viewer.value.id || p.approval == Approved
    else
      p.approval == Approved
  }

  /** The listing pages (home, search, category) show approved products in stock. */
  predicate Browsable(p: Product)
  {
    p.approval == Approved && p.stockStatus == InStock
  }

  /** A listed page shows only what the detail page shows to anyone. */
  lemma BrowsableIsVisible(viewer: Option<User>, p: Product)
    requires Browsable(p)
    ensures CanView(viewer, p)
  {
  }

  /** Editing a product hides it from everyone but its seller until it is approved again. */
  lemma EditHidesListing(viewer: Option<User>, p: Product, form: ProductForm)
    requires ProductValid(p) && FormValid(form)
    ensures CanView(viewer, Edited(p, form)) <==>
      viewer.Some? && viewer.value.role == Seller && viewer.value.id == p.seller
    ensures !Browsable(Edited(p, form))
  {
  }

  /**
   * Approval publishes a product to everyone; rejection leaves it visible to
   * its seller alone, whatever its status was before.
   */
  lemma ApprovalDecidesVisibility(viewer: Option<User>, p: Product)
    ensures CanView(viewer, p.(approval := Approved))
    ensures CanView(viewer, p.(approval := Rejected)) <==>
      viewer.Some? && viewer.value.role == Seller && viewer.value.id == p.seller
    ensures CanView(viewer, p.(approval := Pending)) == CanView(viewer, p.(approval := Rejected))
  {
  }

  /** The order statuses that prove a purchase. */
  predicate Eligible(s: OrderStatus)
  {
    s == Confirmed || s == Shipped || s == Delivered
  }

  /** One order proves that `user` bought `pid`. */
  predicate ProvesPurchase(o: Order, user: UserId, pid: ProductId)
  {
    o.user == user && Eligible(o.status) && exists item | item in o.items :: item.product == pid
  }

  /** An order item exists for `user` and `pid` whose order is confirmed, shipped or delivered. */
  function HasPurchased(orders: seq<Order>, user: UserId, pid: ProductId): (r: bool)
    ensures r <==> exists o | o in orders :: ProvesPurchase(o, user, pid)
  {
    if orders == [] then false
    else
      var n := |orders| - 1;
      assert forall o | o in orders :: o in orders[..n] || o == orders[n];
      HasPurchased(orders[..n], user, pid) || ProvesPurchase(orders[n], user, pid)
  }

  /** The review gate: a proven purchase, and not the product's own seller. */
  predicate CanReview(orders: seq<Order>, user: UserId, p: Product, pid: ProductId)
  {
    HasPurchased(orders, user, pid) && p.seller != user
  }

  /** A pending or cancelled order never opens the review gate. */
  lemma IneligibleOrdersDoNotCount(orders: seq<Order>, o: Order, user: UserId, pid: ProductId)
    requires !Eligible(o.status)
    ensures HasPurchased(orders + [o], user, pid) == HasPurchased(orders, user, pid)
  {
    assert forall x | x in orders + [o] :: x in orders || x == o;
  }

  /** A new order placed by `user` for `pid` in an eligible status opens the gate. */
  lemma PurchaseOpensGate(orders: seq<Order>, o: Order, user: UserId, pid: ProductId, j: int)
    requires o.user == user && Eligible(o.status) && 0 <= j < |o.items| && o.items[j].product == pid
    ensures HasPurchased(orders + [o], user, pid)
  {
    assert o.items[j] in o.items;
    assert o in orders + [o];
  }

  /** A review's rating lies between 1 and 5. */
  predicate RatingValid(rating: int)
  {
    1 <= rating <= 5
  }

  /** The review table, keyed by its unique (user, product) pair. */
  type Reviews = map<(UserId, ProductId), Review>

  /** Every review is filed under its own user and product. */
  predicate ReviewsKeyed(reviews: Reviews)
  {
    forall key | key in reviews :: reviews[key].user == key.0 && reviews[key].product == key.1
  }

  /** Saving the review form: over the user's existing review of the product, or as a new one. */
  function Upsert(reviews: Reviews, r: Review): Reviews
  {
    reviews[(r.user, r.product) := r]
  }

  /**
   * Saving a review keeps one review per (user, product): the saved one
   * replaces the user's earlier review if there was one instead of adding a
   * second, and every other review stays.
   */
  lemma UpsertEffect(reviews: Reviews, r: Review)
    ensures ReviewsKeyed(reviews) ==> ReviewsKeyed(Upsert(reviews, r))
    ensures (r.user, r.product) in Upsert(reviews, r) && Upsert(reviews, r)[(r.user, r.product)] == r
    ensures forall key | key in reviews && key != (r.user, r.product) :: key in Upsert(reviews, r) && Upsert(reviews, r)[key] == reviews[key]
    ensures Upsert(reviews, r).Keys == reviews.Keys + {(r.user, r.product)}
    ensures |Upsert(reviews, r)| == if (r.user, r.product) in reviews then |reviews| else |reviews| + 1
  {
  }
}
