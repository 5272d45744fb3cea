/**
 * The state-changing views of store/views.py over one store: the product
 * table, the cart table, the orders and the reviews. Each method is one POST
 * request; a refused request leaves every table as it was.
 */
module Marketplace {
  import opened Wrappers
  import opened Models
  import Carts
  import Checkout
  import Catalog

  /** `int(request.POST.get('quantity', 1))`: a missing field reads as 1. */
  function PostedQuantity(posted: Option<int>): int
  {
    match posted
    case None => 1
    case Some(q) => q
  }

  /** What every view keeps true of the tables. */
  ghost predicate TablesValid(products: map<ProductId, Product>, cart: seq<CartLine>, orders: seq<Order>,
                              reviews: Catalog.Reviews, nextProductId: ProductId)
  {
    && (forall pid | pid in products :: pid < nextProductId && ProductValid(products[pid]))
    && CartValid(cart)
    && Checkout.Listed(cart, products)
    && (forall o | o in orders ::
          Checkout.IsOrderNumber(o.number) && o.total >= 0 && Checkout.ItemsTotal(o.items) == o.total)
    && Catalog.ReviewsKeyed(reviews)
    && (forall key | key in reviews :: key.1 in products && Catalog.RatingValid(reviews[key].rating))
  }

  /**
   * A checkout that passes its checks keeps the tables valid: no stock goes
   * below zero, the rest of the cart stays valid, and the new order's items
   * add up to its total.
   */
  lemma CheckoutKeepsTablesValid(products: map<ProductId, Product>, cart: seq<CartLine>, orders: seq<Order>,
                                 reviews: Catalog.Reviews, next: ProductId, buyer: UserId, address: string,
                                 pinCode: string, payment: PaymentMethod, draws: seq<nat>,
                                 products': map<ProductId, Product>, cart': seq<CartLine>, orders': seq<Order>)
    requires TablesValid(products, cart, orders, reviews, next) && |draws| == 10
    requires Checkout.Listed(Checkout.UserLines(cart, buyer), products)
    requires Checkout.CheckoutRefusal(products, Checkout.UserLines(cart, buyer), buyer, address, pinCode).None?
    requires products' == Checkout.AfterSale(products, Checkout.UserLines(cart, buyer))
    requires cart' == Checkout.OtherLines(cart, buyer)
    requires orders' == orders + [Checkout.PlacedOrder(products, Checkout.UserLines(cart, buyer), buyer, address,
                                                       pinCode, payment, Checkout.OrderNumber(draws))]
    ensures TablesValid(products', cart', orders', reviews, next)
  {
    var lines := Checkout.UserLines(cart, buyer);
    var o := Checkout.PlacedOrder(products, lines, buyer, address, pinCode, payment, Checkout.OrderNumber(draws));
    Checkout.FilterKeepsValid(cart, buyer);
    SoldStockValid(products, lines, next, products');
    PlacedOrderWellFormed(products, lines, buyer, address, pinCode, payment, Checkout.OrderNumber(draws), o);
    assert Checkout.Listed(cart', products') by {
      forall l | l in cart' ensures l.product in products' {
        assert l in cart;
      }
    }
    assert forall x | x in orders' :: x in orders || x == o;
  }

  /** The stock after a sale that passed the stock check is still valid. */
  lemma SoldStockValid(products: map<ProductId, Product>, lines: seq<CartLine>, next: ProductId,
                       products': map<ProductId, Product>)
    requires forall pid | pid in products :: pid < next && ProductValid(products[pid])
    requires CartValid(lines) && Checkout.DistinctProducts(lines) && Checkout.Listed(lines, products)
    requires forall j | 0 <= j < |lines| :: !Checkout.Unfillable(lines[j], products[lines[j].product])
    requires products' == Checkout.AfterSale(products, lines)
    ensures forall pid | pid in products' :: pid < next && ProductValid(products'[pid])
  {
    assert Checkout.Shortages(lines, products) == [];
    Checkout.SaleKeepsProductsValid(products, lines);
  }

  /** A placed order has a well-formed number and a non-negative total that its items add up to. */
  lemma PlacedOrderWellFormed(products: map<ProductId, Product>, lines: seq<CartLine>, buyer: UserId, address: string,
                               pinCode: string, payment: PaymentMethod, number: string, o: Order)
    requires forall pid | pid in products :: ProductValid(products[pid])
    requires CartValid(lines) && Checkout.Listed(lines, products) && Checkout.IsOrderNumber(number)
    requires o == Checkout.PlacedOrder(products, lines, buyer, address, pinCode, payment, number)
    ensures Checkout.IsOrderNumber(o.number) && o.total >= 0 && Checkout.ItemsTotal(o.items) == o.total
  {
    assert forall l | l in lines :: l.quantity >= 0 && products[l.product].price >= 0;
  }

  /** After a checkout, every product of the buyer's cart opens the review gate for the buyer. */
  lemma CheckoutOpensReviews(orders: seq<Order>, cart: seq<CartLine>, buyer: UserId, o: Order)
    requires o.user == buyer && Catalog.Eligible(o.status)
    requires |o.items| == |Checkout.UserLines(cart, buyer)|
    requires forall j | 0 <= j < |o.items| :: o.items[j].product == Checkout.UserLines(cart, buyer)[j].product
    ensures forall l | l in cart && l.user == buyer :: Catalog.HasPurchased(orders + [o], buyer, l.product)
  {
    var lines := Checkout.UserLines(cart, buyer);
    forall l | l in cart && l.user == buyer ensures Catalog.HasPurchased(orders + [o], buyer, l.product) {
      var j :| 0 <= j < |lines| && lines[j] == l;
      Catalog.PurchaseOpensGate(orders, o, buyer, l.product, j);
    }
  }

  class Store {
    var products: map<ProductId, Product>
    var cart: seq<CartLine>
    var orders: seq<Order>
    var reviews: Catalog.Reviews
    var nextProductId: ProductId

    /** What every view keeps true of the tables. */
    ghost predicate Valid()
      reads this
    {
      TablesValid(products, cart, orders, reviews, nextProductId)
    }

    constructor()
      ensures Valid()
      ensures products == map[] && cart == [] && orders == [] && reviews == map[] && nextProductId == 0
    {
      products, cart, orders, reviews, nextProductId := map[], [], [], map[], 0;
    }

    /** The cart page's total for `user`: the sum of the lines' current prices. */
    function CartAmount(user: UserId): (total: Cents)
      reads this
      requires Valid()
      ensures total >= 0
      ensures Checkout.UserLines(cart, user) == [] ==> total == 0
    {
      var lines := Checkout.UserLines(cart, user);
      assert Checkout.Listed(lines, products);
      Checkout.CartTotal(lines, products)
    }

    /** The product `product_detail` shows to `viewer`, or None for a 404. */
    function Detail(viewer: Option<User>, pid: ProductId): (r: Option<Product>)
      reads this
      ensures r.Some? ==> pid in products && r.value == products[pid]
      ensures r.Some? ==>
        r.value.approval == Approved || (viewer.Some? && viewer.value.role == Seller && viewer.value.id == r.value.seller)
      ensures pid in products && products[pid].approval == Approved ==> r.Some?
      ensures pid in products && viewer.Some? && viewer.value.role == Seller && viewer.value.id == products[pid].seller ==> r.Some?
    {
      if pid in products && Catalog.CanView(viewer, products[pid]) then Some(products[pid]) else None
    }

    /** `add_product`: a seller lists a product with at least one image; it waits for review. */
    method AddProduct(actor: User, form: Catalog.ProductForm, images: nat) returns (r: Result<ProductId, StoreError>)
      requires Valid()
      modifies this
      ensures Valid()
      ensures r == Failure(PermissionDenied) <==> actor.role != Seller
      ensures r == Failure(InvalidForm) <==> actor.role == Seller && !Catalog.FormValid(form)
      ensures r == Failure(MissingImages) <==> actor.role == Seller && Catalog.FormValid(form) && images == 0
      ensures r.Success? <==> actor.role == Seller && Catalog.FormValid(form) && images > 0
      ensures r.Success? ==>
        && r.value == old(nextProductId) && r.value !in old(products)
        && products == old(products)[r.value := Catalog.NewListing(form, actor.id)]
        && products[r.value].approval == Pending
        && nextProductId == old(nextProductId) + 1
      ensures r.Failure? ==> products == old(products) && nextProductId == old(nextProductId)
      ensures cart == old(cart) && orders == old(orders) && reviews == old(reviews)
    {
      if actor.role != Seller {
        return Failure(PermissionDenied);
      }
      if !Catalog.FormValid(form) {
        return Failure(InvalidForm);
      }
      if images == 0 {
        return Failure(MissingImages);
      }
      var pid := nextProductId;
      products := products[pid := Catalog.NewListing(form, actor.id)];
      nextProductId := nextProductId + 1;
      r := Success(pid);
    }

    /** `edit_product`: a seller edits their own product, which goes back to pending. */
    method EditProduct(actor: User, pid: ProductId, form: Catalog.ProductForm) returns (r: Outcome<StoreError>)
      requires Valid()
      modifies this
      ensures Valid()
      ensures r == Fail(PermissionDenied) <==> actor.role != Seller
      ensures r == Fail(NotFound) <==>
        actor.role == Seller && (pid !in old(products) || old(products)[pid].seller != actor.id)
      ensures r == Fail(InvalidForm) <==>
        actor.role == Seller && pid in old(products) && old(products)[pid].seller == actor.id && !Catalog.FormValid(form)
      ensures r.Pass? <==>
        actor.role == Seller && pid in old(products) && old(products)[pid].seller == actor.id && Catalog.FormValid(form)
      ensures r.Pass? ==>
        && pid in old(products)
        && products == old(products)[pid := Catalog.Edited(old(products)[pid], form)]
        && products[pid].approval == Pending
      ensures r.Fail? ==> products == old(products)
      ensures cart == old(cart) && orders == old(orders) && reviews == old(reviews) && nextProductId == old(nextProductId)
    {
      if actor.role != Seller {
        return Fail(PermissionDenied);
      }
      if pid !in products || products[pid].seller != actor.id {
        return Fail(NotFound);
      }
      if !Catalog.FormValid(form) {
        return Fail(InvalidForm);
      }
      products := products[pid := Catalog.Edited(products[pid], form)];
      r := Pass;
    }

    /** `approve_product`: staff or a superuser makes a product live. */
    method ApproveProduct(actor: User, pid: ProductId) returns (r: Outcome<StoreError>)
      requires Valid()
      modifies this
      ensures Valid()
      ensures r == Fail(PermissionDenied) <==> !actor.isStaff && !actor.isSuperuser
      ensures r == Fail(NotFound) <==> (actor.isStaff || actor.isSuperuser) && pid !in old(products)
      ensures r.Pass? <==> (actor.isStaff || actor.isSuperuser) && pid in old(products)
      ensures r.Pass? ==> pid in old(products) && products == old(products)[pid := old(products)[pid].(approval := Approved)]
      ensures r.Fail? ==> products == old(products)
      ensures cart == old(cart) && orders == old(orders) && reviews == old(reviews) && nextProductId == old(nextProductId)
    {
      if !actor.isStaff && !actor.isSuperuser {
        return Fail(PermissionDenied);
      }
      if pid !in products {
        return Fail(NotFound);
      }
      products := products[pid := products[pid].(approval := Approved)];
      r := Pass;
    }

    /** `reject_product`: staff or a superuser turns a product down. */
    method RejectProduct(actor: User, pid: ProductId) returns (r: Outcome<StoreError>)
      requires Valid()
      modifies this
      ensures Valid()
      ensures r == Fail(PermissionDenied) <==> !actor.isStaff && !actor.isSuperuser
      ensures r == Fail(NotFound) <==> (actor.isStaff || actor.isSuperuser) && pid !in old(products)
      ensures r.Pass? <==> (actor.isStaff || actor.isSuperuser) && pid in old(products)
      ensures r.Pass? ==> pid in old(products) && products == old(products)[pid := old(products)[pid].(approval := Rejected)]
      ensures r.Fail? ==> products == old(products)
      ensures cart == old(cart) && orders == old(orders) && reviews == old(reviews) && nextProductId == old(nextProductId)
    {
      if !actor.isStaff && !actor.isSuperuser {
        return Fail(PermissionDenied);
      }
      if pid !in products {
        return Fail(NotFound);
      }
      products := products[pid := products[pid].(approval := Rejected)];
      r := Pass;
    }

    /** `add_to_cart`, with quantities below one refused. */
    method AddToCart(user: UserId, pid: ProductId, posted: Option<int>) returns (r: Outcome<StoreError>)
      requires Valid()
      modifies this
      ensures Valid()
      ensures var res := Carts.AddToCart(old(products), old(cart), user, pid, PostedQuantity(posted));
        && (r.Pass? <==> res.Success?)
        && (r.Pass? ==> cart == res.value)
        && (r.Fail? ==> res == Failure(r.error) && cart == old(cart))
      ensures r.Pass? ==> Carts.LineQuantity(cart, user, pid) == Carts.LineQuantity(old(cart), user, pid) + PostedQuantity(posted)
      ensures products == old(products) && orders == old(orders) && reviews == old(reviews) && nextProductId == old(nextProductId)
    {
      var res := Carts.AddToCart(products, cart, user, pid, PostedQuantity(posted));
      if res.Failure? {
        return Fail(res.error);
      }
      Carts.AddLineLines(cart, user, pid, PostedQuantity(posted));
      cart := res.value;
      r := Pass;
    }

    /** `update_cart`: a positive quantity replaces the line's, any other removes the line. */
    method UpdateCart(user: UserId, pid: ProductId, posted: Option<int>) returns (r: Outcome<StoreError>)
      requires Valid()
      modifies this
      ensures Valid()
      ensures r == Fail(NotFound) <==> Carts.FindLine(old(cart), user, pid).None?
      ensures r.Pass? <==> Carts.FindLine(old(cart), user, pid).Some?
      ensures r.Pass? ==> cart == Carts.SetLine(old(cart), user, pid, PostedQuantity(posted))
      ensures r.Pass? ==> Carts.LineQuantity(cart, user, pid) == if PostedQuantity(posted) > 0 then PostedQuantity(posted) else 0
      ensures r.Fail? ==> cart == old(cart)
      ensures products == old(products) && orders == old(orders) && reviews == old(reviews) && nextProductId == old(nextProductId)
    {
      if Carts.FindLine(cart, user, pid).None? {
        return Fail(NotFound);
      }
      Carts.SetLineEffect(cart, user, pid, PostedQuantity(posted));
      Carts.SetLineLines(cart, user, pid, PostedQuantity(posted));
      cart := Carts.SetLine(cart, user, pid, PostedQuantity(posted));
      r := Pass;
    }

    /** `remove_from_cart`: the user's line goes. */
    method RemoveFromCart(user: UserId, pid: ProductId) returns (r: Outcome<StoreError>)
      requires Valid()
      modifies this
      ensures Valid()
      ensures r == Fail(NotFound) <==> Carts.FindLine(old(cart), user, pid).None?
      ensures r.Pass? <==> Carts.FindLine(old(cart), user, pid).Some?
      ensures r.Pass? ==> cart == Carts.DropLine(old(cart), user, pid) && Carts.FindLine(cart, user, pid).None?
      ensures r.Fail? ==> cart == old(cart)
      ensures products == old(products) && orders == old(orders) && reviews == old(reviews) && nextProductId == old(nextProductId)
    {
      if Carts.FindLine(cart, user, pid).None? {
        return Fail(NotFound);
      }
      Carts.DropLineEffect(cart, user, pid);
      Carts.SetLineLines(cart, user, pid, 0);
      cart := Carts.DropLine(cart, user, pid);
      r := Pass;
    }

    /**
     * `buy_now`: the checks of the checkout, then one confirmed order of
     * every line of the buyer's cart at the prices loaded, the stock sold
     * off, and the buyer's cart emptied. `draws` are the ten random draws
     * of the order number.
     */
    method BuyNow(buyer: UserId, address: string, pinCode: string, payment: PaymentMethod, draws: seq<nat>)
      returns (r: Result<Order, StoreError>)
      requires Valid() && |draws| == 10
      modifies this
      ensures Valid()
      ensures var lines := Checkout.UserLines(old(cart), buyer);
        Checkout.Listed(lines, old(products)) &&
        var refusal := Checkout.CheckoutRefusal(old(products), lines, buyer, address, pinCode);
        && (r.Success? <==> refusal.None?)
        && (r.Failure? ==> refusal == Some(r.error))
        && (r.Success? ==>
              && r.value == Checkout.PlacedOrder(old(products), lines, buyer, address, pinCode, payment, Checkout.OrderNumber(draws))
              && products == Checkout.AfterSale(old(products), lines))
      ensures r.Success? ==> orders == old(orders) + [r.value] && cart == Checkout.OtherLines(old(cart), buyer)
      ensures r.Success? ==> Checkout.UserLines(cart, buyer) == []
      ensures r.Success? ==> forall l | l in old(cart) && l.user == buyer :: Catalog.HasPurchased(orders, buyer, l.product)
      ensures r.Success? ==> forall l | l in old(cart) && l.user == buyer :: old(products)[l.product].seller != buyer
      ensures r.Failure? ==> products == old(products) && cart == old(cart) && orders == old(orders)
      ensures reviews == old(reviews) && nextProductId == old(nextProductId)
    {
      var lines := Checkout.UserLines(cart, buyer);
      assert Checkout.Listed(lines, products);
      var refusal := CheckRefusal(lines, buyer, address, pinCode);
      if refusal.Some? {
        return Failure(refusal.value);
      }
      var order := PlaceOrder(lines, buyer, address, pinCode, payment, draws);
      CheckoutOpensReviews(old(orders), old(cart), buyer, order);
      assert forall l | l in lines :: old(products)[l.product].seller != buyer;
      r := Success(order);
    }

    /** The success path of `buy_now`: the order, the sale and the cleared cart. */
    method PlaceOrder(lines: seq<CartLine>, buyer: UserId, address: string, pinCode: string,
                      payment: PaymentMethod, draws: seq<nat>) returns (order: Order)
      requires Valid() && |draws| == 10 && lines == Checkout.UserLines(cart, buyer)
      requires Checkout.Listed(lines, products)
      requires Checkout.CheckoutRefusal(products, lines, buyer, address, pinCode).None?
      modifies this
      ensures Valid()
      ensures order == Checkout.PlacedOrder(old(products), lines, buyer, address, pinCode, payment, Checkout.OrderNumber(draws))
      ensures products == Checkout.AfterSale(old(products), lines)
      ensures orders == old(orders) + [order] && cart == Checkout.OtherLines(old(cart), buyer)
      ensures Checkout.UserLines(cart, buyer) == []
      ensures reviews == old(reviews) && nextProductId == old(nextProductId)
    {
      ghost var placed := Checkout.PlacedOrder(products, lines, buyer, address, pinCode, payment, Checkout.OrderNumber(draws));
      var total := Checkout.CartTotal(lines, products);
      var number := Checkout.OrderNumber(draws);
      var items := RecordSale(lines);
      order := Order(buyer, number, address, pinCode, payment, total, Confirmed, items);
      assert order == placed;
      orders := orders + [order];
      cart := Checkout.OtherLines(cart, buyer);
      Checkout.ClearedCart(old(cart), buyer, buyer);
      CheckoutKeepsTablesValid(old(products), old(cart), old(orders), reviews, nextProductId, buyer, address, pinCode,
                               payment, draws, products, cart, orders);
    }

    /** The checks of `buy_now`, in the view's order, with the stock scan as its loop. */
    method CheckRefusal(lines: seq<CartLine>, buyer: UserId, address: string, pinCode: string)
      returns (refusal: Option<StoreError>)
      requires Checkout.Listed(lines, products)
      ensures refusal == Checkout.CheckoutRefusal(products, lines, buyer, address, pinCode)
    {
      if lines == [] {
        return Some(EmptyCart);
      }
      if exists l | l in lines :: products[l.product].seller == buyer {
        return Some(SelfPurchase);
      }
      if address == "" || pinCode == "" {
        return Some(MissingDetails);
      }
      var short := Checkout.CollectShortages(lines, products);
      if short != [] {
        return Some(InsufficientStock(short));
      }
      refusal := None;
    }

    /**
     * The order-item loop of `buy_now`: each line is recorded at the price
     * loaded and its product, as loaded, is sold off.
     */
    method RecordSale(lines: seq<CartLine>) returns (items: seq<OrderItem>)
      requires Checkout.Listed(lines, products)
      modifies this
      ensures items == Checkout.Snapshot(lines, old(products))
      ensures products == Checkout.AfterSale(old(products), lines)
      ensures cart == old(cart) && orders == old(orders) && reviews == old(reviews) && nextProductId == old(nextProductId)
    {
      var loaded := products;
      items := [];
      for i := 0 to |lines|
        invariant Checkout.Listed(lines[..i], loaded)
        invariant items == Checkout.Snapshot(lines[..i], loaded)
        invariant products == Checkout.AfterSale(loaded, lines[..i])
        invariant cart == old(cart) && orders == old(orders) && reviews == old(reviews) && nextProductId == old(nextProductId)
      {
        var line := lines[i];
        assert lines[..i + 1][..i] == lines[..i];
        items := items + [OrderItem(line.product, line.quantity, loaded[line.product].price)];
        products := products[line.product := Checkout.Sold(loaded[line.product], line.quantity)];
      }
      assert lines[..|lines|] == lines;
    }

    /**
     * The review form of `product_detail`: a viewer who can see the product,
     * has an eligible purchase of it and does not sell it saves a rating
     * from 1 to 5, over their earlier review if there is one.
     */
    method SubmitReview(viewer: User, pid: ProductId, rating: int, text: string) returns (r: Outcome<StoreError>)
      requires Valid()
      modifies this
      ensures Valid()
      ensures r == Fail(NotFound) <==> pid !in old(products) || !Catalog.CanView(Some(viewer), old(products)[pid])
      ensures r == Fail(NotEligible) <==>
        pid in old(products) && Catalog.CanView(Some(viewer), old(products)[pid])
        && !Catalog.CanReview(old(orders), viewer.id, old(products)[pid], pid)
      ensures r == Fail(InvalidForm) <==>
        pid in old(products) && Catalog.CanView(Some(viewer), old(products)[pid])
        && Catalog.CanReview(old(orders), viewer.id, old(products)[pid], pid) && !Catalog.RatingValid(rating)
      ensures r.Pass? <==>
        pid in old(products) && Catalog.CanView(Some(viewer), old(products)[pid])
        && Catalog.CanReview(old(orders), viewer.id, old(products)[pid], pid) && Catalog.RatingValid(rating)
      ensures r.Pass? ==> reviews == Catalog.Upsert(old(reviews), Review(viewer.id, pid, rating, text))
      ensures r.Fail? ==> reviews == old(reviews)
      ensures products == old(products) && cart == old(cart) && orders == old(orders) && nextProductId == old(nextProductId)
    {
      if pid !in products || !Catalog.CanView(Some(viewer), products[pid]) {
        return Fail(NotFound);
      }
      if !Catalog.CanReview(orders, viewer.id, products[pid], pid) {
        return Fail(NotEligible);
      }
      if !Catalog.RatingValid(rating) {
        return Fail(InvalidForm);
      }
      var review := Review(viewer.id, pid, rating, text);
      Catalog.UpsertEffect(reviews, review);
      reviews := Catalog.Upsert(reviews, review);
      r := Pass;
    }
  }
}
