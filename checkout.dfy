/**
 * The checkout of store/views.py (buy_now) as specification functions: the
 * checks in the order the view applies them, the stock scan, the order
 * snapshot, the stock decrement and the clearing of the cart. The
 * Marketplace module's Store.BuyNow performs the same steps on the store's
 * state and is proved to agree with these functions.
 */
module Checkout {
  import opened Wrappers
  import opened Models

  type Stock = map<ProductId, Product>

  /** Every line names a product of the store. */
  predicate Listed(lines: seq<CartLine>, stock: Stock)
  {
    forall l | l in lines :: l.product in stock
  }

  /** No two lines name the same product. */
  predicate DistinctProducts(lines: seq<CartLine>)
  {
    forall j, k | 0 <= j < k < |lines| :: lines[j].product != lines[k].product
  }

  /** `Cart.objects.filter(user=user)`: the lines of one user, in cart order. */
  function UserLines(cart: seq<CartLine>, user: UserId): (r: seq<CartLine>)
    ensures forall l :: l in r <==> l in cart && l.user == user
    ensures |r| <= |cart|
  {
    if cart == [] then []
    else (if cart[0].user == user then [cart[0]] else []) + UserLines(cart[1..], user)
  }

  /** The cart after the user's lines are deleted: the lines of every other user, in order. */
  function OtherLines(cart: seq<CartLine>, user: UserId): (r: seq<CartLine>)
    ensures forall l :: l in r <==> l in cart && l.user != user
    ensures |r| <= |cart|
  {
    if cart == [] then []
    else (if cart[0].user != user then [cart[0]] else []) + OtherLines(cart[1..], user)
  }

  /** Clearing one user's cart empties it and leaves every other user's cart as it was. */
  lemma {:induction false} ClearedCart(cart: seq<CartLine>, user: UserId, other: UserId)
    ensures UserLines(OtherLines(cart, user), user) == []
    ensures other != user ==> UserLines(OtherLines(cart, user), other) == UserLines(cart, other)
  {
    if cart != [] {
      ClearedCart(cart[1..], user, other);
      var c, rest := cart[0], OtherLines(cart[1..], user);
      if c.user != user {
        assert OtherLines(cart, user) == [c] + rest;
        UserLinesCons(c, rest, user);
        UserLinesCons(c, rest, other);
      } else {
        assert OtherLines(cart, user) == [] + rest == rest;
      }
    }
  }

  lemma UserLinesCons(c: CartLine, rest: seq<CartLine>, user: UserId)
    ensures UserLines([c] + rest, user) == (if c.user == user then [c] else []) + UserLines(rest, user)
  {
    assert ([c] + rest)[1..] == rest;
  }

  /** A sub-sequence of unique-keyed lines that keeps their order keeps the keys unique. */
  lemma {:induction false} FilterKeepsValid(cart: seq<CartLine>, user: UserId)
    requires CartValid(cart)
    ensures CartValid(OtherLines(cart, user))
    ensures CartValid(UserLines(cart, user))
    ensures DistinctProducts(UserLines(cart, user))
  {
    if cart != [] {
      FilterKeepsValid(cart[1..], user);
      var rest := cart[1..];
      forall l | l in rest ensures !SameKey(cart[0], l) {
        var m :| 0 <= m < |rest| && rest[m] == l;
        assert cart[m + 1] == l;
      }
      ConsValid(cart[0], OtherLines(rest, user));
      ConsValid(cart[0], UserLines(rest, user));
      var ul := UserLines(cart, user);
      forall j, k | 0 <= j < k < |ul| ensures ul[j].product != ul[k].product {
        assert ul[j] in ul && ul[k] in ul;
        assert !SameKey(ul[j], ul[k]);
      }
    }
  }

  lemma ConsValid(x: CartLine, s: seq<CartLine>)
    requires x.quantity >= 1 && CartValid(s)
    requires forall l | l in s :: !SameKey(x, l)
    ensures CartValid([x] + s) && CartValid(s)
  {
    var r := [x] + s;
    forall j, k | 0 <= j < k < |r| ensures !SameKey(r[j], r[k]) {
      assert r[k] == s[k - 1];
      if j > 0 { assert r[j] == s[j - 1]; }
    }
  }

  /** One line of the stock scan: too few left, or marked out of stock. */
  predicate Unfillable(line: CartLine, p: Product)
  {
    p.quantity < line.quantity || p.stockStatus == OutOfStock
  }

  function ShortageOf(line: CartLine, p: Product): Shortage
  {
    Shortage(line.product, p.name, p.quantity)
  }

  /** The stock scan: one entry per unfillable line, in cart order. */
  function Shortages(lines: seq<CartLine>, stock: Stock): (r: seq<Shortage>)
    requires Listed(lines, stock)
    ensures |r| <= |lines|
    ensures forall j | 0 <= j < |lines| && Unfillable(lines[j], stock[lines[j].product]) ::
      ShortageOf(lines[j], stock[lines[j].product]) in r
    ensures forall s | s in r :: exists j | 0 <= j < |lines| ::
      Unfillable(lines[j], stock[lines[j].product]) && s == ShortageOf(lines[j], stock[lines[j].product])
    ensures r == [] <==> forall j | 0 <= j < |lines| :: !Unfillable(lines[j], stock[lines[j].product])
  {
    if lines == [] then []
    else
      var n := |lines| - 1;
      var last := lines[n];
      var before := Shortages(lines[..n], stock);
      assert forall j | 0 <= j < n :: lines[..n][j] == lines[j];
      before + (if Unfillable(last, stock[last.product]) then [ShortageOf(last, stock[last.product])] else [])
  }

  /** The stock scan as the view runs it: a loop appending to a list. */
  method CollectShortages(lines: seq<CartLine>, stock: Stock) returns (found: seq<Shortage>)
    requires Listed(lines, stock)
    ensures found == Shortages(lines, stock)
  {
    found := [];
    for i := 0 to |lines|
      invariant found == Shortages(lines[..i], stock)
    {
      var line := lines[i];
      var p := stock[line.product];
      if p.quantity < line.quantity || p.stockStatus == OutOfStock {
        found := found + [Shortage(line.product, p.name, p.quantity)];
      }
      assert lines[..i + 1][..i] == lines[..i];
    }
    assert lines[..|lines|] == lines;
  }

  /** Some line of the cart is for a product the buyer sells. */
  predicate SellsAny(lines: seq<CartLine>, stock: Stock, buyer: UserId)
    requires Listed(lines, stock)
  {
    exists l | l in lines :: stock[l.product].seller == buyer
  }

  /**
   * The checks of the checkout, first failure first: an empty cart, a line
   * the buyer sells, a missing address or pin code, then every line that
   * cannot be filled.
   */
  function CheckoutRefusal(stock: Stock, lines: seq<CartLine>, buyer: UserId, address: string, pinCode: string)
    : (r: Option<StoreError>)
    requires Listed(lines, stock)
    ensures lines == [] ==> r == Some(EmptyCart)
    ensures lines != [] && SellsAny(lines, stock, buyer) ==> r == Some(SelfPurchase)
    ensures lines != [] && !SellsAny(lines, stock, buyer) && (address == "" || pinCode == "") ==> r == Some(MissingDetails)
    ensures r.None? <==>
      && lines != [] && !SellsAny(lines, stock, buyer) && address != "" && pinCode != ""
      && forall j | 0 <= j < |lines| :: !Unfillable(lines[j], stock[lines[j].product])
    ensures (lines != [] && !SellsAny(lines, stock, buyer) && address != "" && pinCode != ""
      && Shortages(lines, stock) != []) ==> r == Some(InsufficientStock(Shortages(lines, stock)))
    ensures r.Some? && r.value.InsufficientStock? ==> r.value.shortages != []
  {
    if lines == [] then Some(EmptyCart)
    else if SellsAny(lines, stock, buyer) then Some(SelfPurchase)
    else if address == "" || pinCode == "" then Some(MissingDetails)
    else
      var shortages := Shortages(lines, stock);
      if shortages != [] then Some(InsufficientStock(shortages)) else None
  }

  /** A seller can never check out a cart holding one of their own products. */
  lemma SellerCannotBuyOwn(stock: Stock, lines: seq<CartLine>, buyer: UserId, address: string, pinCode: string, j: int)
    requires Listed(lines, stock) && 0 <= j < |lines| && stock[lines[j].product].seller == buyer
    ensures CheckoutRefusal(stock, lines, buyer, address, pinCode) == Some(SelfPurchase)
  {
    assert lines[j] in lines;
  }

  /** `sum(item.get_total_price() for item in cart_items)`. */
  function CartTotal(lines: seq<CartLine>, stock: Stock): (total: Cents)
    requires Listed(lines, stock)
    ensures (forall l | l in lines :: l.quantity >= 0 && stock[l.product].price >= 0) ==> total >= 0
  {
    if lines == [] then 0
    else
      var n := |lines| - 1;
      assert forall l | l in lines[..n] :: l in lines;
      CartTotal(lines[..n], stock) + LineTotal(lines[n], stock[lines[n].product])
  }

  /** The sum of the frozen totals of an order's items. */
  function ItemsTotal(items: seq<OrderItem>): Cents
  {
    if items == [] then 0 else ItemsTotal(items[..|items| - 1]) + ItemTotal(items[|items| - 1])
  }

  /** The order items: each copies its line's product and quantity and the product's price at checkout. */
  function Snapshot(lines: seq<CartLine>, stock: Stock): (items: seq<OrderItem>)
    requires Listed(lines, stock)
    ensures |items| == |lines|
    ensures forall j | 0 <= j < |lines| ::
      items[j] == OrderItem(lines[j].product, lines[j].quantity, stock[lines[j].product].price)
  {
    if lines == [] then []
    else
      var n := |lines| - 1;
      var line := lines[n];
      Snapshot(lines[..n], stock) + [OrderItem(line.product, line.quantity, stock[line.product].price)]
  }

  /** The order's items add up to the cart total it was charged. */
  lemma {:induction false} OrderTotalMatchesItems(lines: seq<CartLine>, stock: Stock)
    requires Listed(lines, stock)
    ensures ItemsTotal(Snapshot(lines, stock)) == CartTotal(lines, stock)
  {
    if lines != [] {
      var n := |lines| - 1;
      OrderTotalMatchesItems(lines[..n], stock);
      var items := Snapshot(lines, stock);
      assert items[..n] == Snapshot(lines[..n], stock);
    }
  }

  /** One product after a line of `q` of it is sold. */
  function Sold(p: Product, q: int): (r: Product)
    ensures r.quantity == p.quantity - q && r.totalSells == p.totalSells + q
    ensures r.quantity + r.totalSells == p.quantity + p.totalSells
    ensures r.stockStatus == OutOfStock <==> r.quantity <= 0 || p.stockStatus == OutOfStock
    ensures r.(quantity := p.quantity, totalSells := p.totalSells, stockStatus := p.stockStatus) == p
  {
    var left := p.quantity - q;
    p.(totalSells := p.totalSells + q,
       quantity := left,
       stockStatus := if left <= 0 then OutOfStock else p.stockStatus)
  }

  /** The stock after each line's product has been sold, every product read as it was loaded. */
  function AfterSale(stock: Stock, lines: seq<CartLine>): (r: Stock)
    requires Listed(lines, stock)
    ensures r.Keys == stock.Keys
  {
    if lines == [] then stock
    else
      var n := |lines| - 1;
      var last := lines[n];
      assert forall l | l in lines[..n] :: l in lines;
      AfterSale(stock, lines[..n])[last.product := Sold(stock[last.product], last.quantity)]
  }

  /** A product that no line names is left as it was. */
  lemma {:induction false} AfterSaleUntouched(stock: Stock, lines: seq<CartLine>, pid: ProductId)
    requires Listed(lines, stock) && pid in stock
    requires forall j | 0 <= j < |lines| :: lines[j].product != pid
    ensures AfterSale(stock, lines)[pid] == stock[pid]
  {
    if lines != [] {
      var n := |lines| - 1;
      assert forall l | l in lines[..n] :: l in lines;
      AfterSaleUntouched(stock, lines[..n], pid);
    }
  }

  /** A product named by a line is sold exactly that line's quantity. */
  lemma {:induction false} AfterSaleSold(stock: Stock, lines: seq<CartLine>, j: int)
    requires Listed(lines, stock) && DistinctProducts(lines) && 0 <= j < |lines|
    ensures lines[j].product in stock
    ensures AfterSale(stock, lines)[lines[j].product] == Sold(stock[lines[j].product], lines[j].quantity)
  {
    assert lines[j] in lines;
    var n := |lines| - 1;
    if j < n {
      assert forall l | l in lines[..n] :: l in lines;
      assert lines[..n][j] == lines[j];
      AfterSaleSold(stock, lines[..n], j);
    }
  }

  /**
   * Selling conserves every product's stock plus sales, decrements a sold
   * product by its line's quantity, and leaves every other product alone.
   */
  lemma SaleEffect(stock: Stock, lines: seq<CartLine>, pid: ProductId)
    requires Listed(lines, stock) && DistinctProducts(lines) && pid in stock
    ensures var before, after := stock[pid], AfterSale(stock, lines)[pid];
      && after.quantity + after.totalSells == before.quantity + before.totalSells
      && after.price == before.price && after.seller == before.seller && after.approval == before.approval
      && (forall j | 0 <= j < |lines| && lines[j].product == pid ::
            after.quantity == before.quantity - lines[j].quantity
            && after.totalSells == before.totalSells + lines[j].quantity)
      && ((forall j | 0 <= j < |lines| :: lines[j].product != pid) ==> after == before)
  {
    if j :| 0 <= j < |lines| && lines[j].product == pid {
      AfterSaleSold(stock, lines, j);
    } else {
      AfterSaleUntouched(stock, lines, pid);
    }
  }

  /**
   * When no line is short, the sale leaves every product valid (no stock
   * goes negative), and a sold product is out of stock exactly when none is left.
   */
  lemma SaleKeepsProductsValid(stock: Stock, lines: seq<CartLine>)
    requires Listed(lines, stock) && DistinctProducts(lines)
    requires forall pid | pid in stock :: ProductValid(stock[pid])
    requires forall l | l in lines :: l.quantity >= 1
    requires Shortages(lines, stock) == []
    ensures forall pid | pid in AfterSale(stock, lines) :: ProductValid(AfterSale(stock, lines)[pid])
    ensures forall j | 0 <= j < |lines| ::
      var after := AfterSale(stock, lines)[lines[j].product];
      after.stockStatus == OutOfStock <==> after.quantity == 0
  {
    var after := AfterSale(stock, lines);
    forall pid | pid in after ensures ProductValid(after[pid]) {
      if j :| 0 <= j < |lines| && lines[j].product == pid {
        AfterSaleSold(stock, lines, j);
        assert lines[j] in lines;
      } else {
        AfterSaleUntouched(stock, lines, pid);
      }
    }
    forall j | 0 <= j < |lines|
      ensures after[lines[j].product].stockStatus == OutOfStock <==> after[lines[j].product].quantity == 0
    {
      AfterSaleSold(stock, lines, j);
    }
  }

  /** The 36 characters of an order number, upper-case letters then digits. */
  predicate IsOrderChar(c: char)
  {
    'A' <= c <= 'Z' || '0' <= c <= '9'
  }

  /** The `i`-th character of `string.ascii_uppercase + string.digits`. */
  function OrderChar(i: nat): (c: char)
    requires i < 36
    ensures IsOrderChar(c)
  {
    if i < 26 then ('A' as int + i) as char else ('0' as int + i - 26) as char
  }

  /** "ORD" followed by ten upper-case letters or digits. */
  predicate IsOrderNumber(s: string)
  {
    |s| == 13 && s[..3] == "ORD" && forall k | 3 <= k < 13 :: IsOrderChar(s[k])
  }

  /** The order number drawn from ten random picks among the 36 characters. */
  function OrderNumber(draws: seq<nat>): (s: string)
    requires |draws| == 10
    ensures IsOrderNumber(s)
    ensures forall k | 0 <= k < 10 :: s[k + 3] == OrderChar(draws[k] % 36)
  {
    "ORD" + seq(10, k requires 0 <= k < 10 => OrderChar(draws[k] % 36))
  }

  /** The position of an order-number character among the 36. */
  function OrderCharIndex(c: char): (i: nat)
    requires IsOrderChar(c)
    ensures i < 36 && OrderChar(i) == c
  {
    if 'A' <= c <= 'Z' then c as int - 'A' as int else c as int - '0' as int + 26
  }

  /** Every well-formed order number can be drawn. */
  lemma OrderNumberOnto(s: string)
    requires IsOrderNumber(s)
    ensures exists draws: seq<nat> :: |draws| == 10 && OrderNumber(draws) == s
  {
    var draws := seq(10, k requires 0 <= k < 10 => OrderCharIndex(s[k + 3]));
    var t := OrderNumber(draws);
    assert forall k | 0 <= k < 13 :: t[k] == s[k] by {
      forall k | 0 <= k < 13 ensures t[k] == s[k] {
        if k < 3 { assert t[..3][k] == s[..3][k]; }
      }
    }
    assert t == s;
  }

  /** The order a successful checkout records. */
  function PlacedOrder(stock: Stock, lines: seq<CartLine>, buyer: UserId, address: string, pinCode: string,
                       payment: PaymentMethod, number: string): (o: Order)
    requires Listed(lines, stock)
    ensures o.user == buyer && o.number == number && o.status == Confirmed
    ensures o.address == address && o.pinCode == pinCode && o.payment == payment
    ensures o.total == CartTotal(lines, stock) && ItemsTotal(o.items) == o.total
    ensures |o.items| == |lines|
    ensures forall j | 0 <= j < |lines| ::
      (o.items[j].product == lines[j].product && o.items[j].quantity == lines[j].quantity
       && o.items[j].price == stock[lines[j].product].price)
  {
    OrderTotalMatchesItems(lines, stock);
    Order(buyer, number, address, pinCode, payment, CartTotal(lines, stock), Confirmed, Snapshot(lines, stock))
  }
}
