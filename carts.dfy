/**
 * The cart operations of store/views.py (add_to_cart, update_cart,
 * remove_from_cart) as functions on the sequence of cart lines, kept in the
 * queryset's newest-first order. A line is addressed by its (user, product)
 * pair, which the table keeps unique.
 */
module Carts {
  import opened Wrappers
  import opened Models

  /** The position of the line of `user` for `pid`, if there is one. */
  function FindLine(cart: seq<CartLine>, user: UserId, pid: ProductId): (r: Option<nat>)
    ensures r.Some? ==> r.value < |cart| && cart[r.value].user == user && cart[r.value].product == pid
    ensures r.None? ==> forall j | 0 <= j < |cart| :: !(cart[j].user == user && cart[j].product == pid)
  {
    if cart == [] then None
    else if cart[0].user == user && cart[0].product == pid then Some(0)
    else
      match FindLine(cart[1..], user, pid)
      case None => None
      case Some(k) => Some(k + 1)
  }

  /** The quantity of `pid` in the cart of `user`; 0 when there is no line. */
  function LineQuantity(cart: seq<CartLine>, user: UserId, pid: ProductId): int
  {
    match FindLine(cart, user, pid)
    case None => 0
    case Some(i) => cart[i].quantity
  }

  /** With unique keys, the line at `j` is the one found for its key. */
  lemma FoundAt(cart: seq<CartLine>, j: int)
    requires KeysUnique(cart) && 0 <= j < |cart|
    ensures FindLine(cart, cart[j].user, cart[j].product) == Some(j)
    ensures LineQuantity(cart, cart[j].user, cart[j].product) == cart[j].quantity
  {
  }

  /** `get_or_create` followed by `quantity += q`: a new line goes to the front. */
  function AddLine(cart: seq<CartLine>, user: UserId, pid: ProductId, q: int): seq<CartLine>
  {
    match FindLine(cart, user, pid)
    case Some(i) => cart[i := cart[i].(quantity := cart[i].quantity + q)]
    case None => [CartLine(user, pid, q)] + cart
  }

  /** Deleting the line of `user` for `pid`. */
  function DropLine(cart: seq<CartLine>, user: UserId, pid: ProductId): seq<CartLine>
    requires FindLine(cart, user, pid).Some?
  {
    var i := FindLine(cart, user, pid).value;
    cart[..i] + cart[i + 1..]
  }

  /** `update_cart`: a positive quantity overwrites, any other deletes the line. */
  function SetLine(cart: seq<CartLine>, user: UserId, pid: ProductId, q: int): seq<CartLine>
    requires FindLine(cart, user, pid).Some?
  {
    var i := FindLine(cart, user, pid).value;
    if q > 0 then cart[i := cart[i].(quantity := q)] else DropLine(cart, user, pid)
  }

  /** Every line after an add is a line that was there before or the line for `pid`. */
  lemma AddLineLines(cart: seq<CartLine>, user: UserId, pid: ProductId, q: int)
    ensures forall l | l in AddLine(cart, user, pid, q) :: l in cart || l.product == pid
  {
    var r := AddLine(cart, user, pid, q);
    forall l | l in r ensures l in cart || l.product == pid {
      var m :| 0 <= m < |r| && r[m] == l;
      match FindLine(cart, user, pid)
      case Some(i) =>
        if m != i { assert l == cart[m]; }
      case None =>
        if m > 0 { assert l == cart[m - 1]; }
    }
  }

  /** Every line after an update or a removal is a line that was there before or the line for `pid`. */
  lemma SetLineLines(cart: seq<CartLine>, user: UserId, pid: ProductId, q: int)
    requires FindLine(cart, user, pid).Some?
    ensures forall l | l in SetLine(cart, user, pid, q) :: l in cart || l.product == pid
    ensures forall l | l in DropLine(cart, user, pid) :: l in cart
  {
    var i := FindLine(cart, user, pid).value;
    var d := DropLine(cart, user, pid);
    forall l | l in d ensures l in cart {
      var m :| 0 <= m < |d| && d[m] == l;
      if m < i { assert l == cart[m]; } else { assert l == cart[m + 1]; }
    }
    var r := SetLine(cart, user, pid, q);
    forall l | l in r ensures l in cart || l.product == pid {
      var m :| 0 <= m < |r| && r[m] == l;
      if q > 0 && m != i { assert l == cart[m]; }
    }
  }

  /** Adding accumulates on the (user, product) line, creating it when absent, and touches no other line. */
  lemma {:induction false} AddLineEffect(cart: seq<CartLine>, user: UserId, pid: ProductId, q: int)
    requires KeysUnique(cart)
    ensures KeysUnique(AddLine(cart, user, pid, q))
    ensures LineQuantity(AddLine(cart, user, pid, q), user, pid) == LineQuantity(cart, user, pid) + q
    ensures forall u, p | u != user || p != pid ::
      LineQuantity(AddLine(cart, user, pid, q), u, p) == LineQuantity(cart, u, p)
    ensures CartValid(cart) && q >= 1 ==> CartValid(AddLine(cart, user, pid, q))
  {
    var r := AddLine(cart, user, pid, q);
    match FindLine(cart, user, pid)
    case Some(i) =>
      assert |r| == |cart|;
      assert forall j | 0 <= j < |r| :: SameKey(r[j], cart[j]) || (r[j].user == cart[j].user && r[j].product == cart[j].product);
      assert KeysUnique(r);
      FoundAt(r, i);
      forall u, p | u != user || p != pid
        ensures LineQuantity(r, u, p) == LineQuantity(cart, u, p)
      {
        SameLinesElsewhere(cart, r, u, p);
      }
    case None =>
      assert KeysUnique(r) by {
        forall j, k | 0 <= j < k < |r| ensures !SameKey(r[j], r[k]) {
          if j > 0 { assert r[j] == cart[j - 1] && r[k] == cart[k - 1]; }
        }
      }
      FoundAt(r, 0);
      forall u, p | u != user || p != pid
        ensures LineQuantity(r, u, p) == LineQuantity(cart, u, p)
      {
        assert r[1..] == cart;
      }
  }

  /**
   * Two carts with the same keys in the same places whose lines agree at
   * every place holding (u, p) agree on the quantity of (u, p).
   */
  lemma SameLinesElsewhere(a: seq<CartLine>, b: seq<CartLine>, u: UserId, p: ProductId)
    requires |a| == |b|
    requires forall j | 0 <= j < |a| :: a[j].user == b[j].user && a[j].product == b[j].product
    requires forall j | 0 <= j < |a| && a[j].user == u && a[j].product == p :: a[j] == b[j]
    ensures LineQuantity(a, u, p) == LineQuantity(b, u, p)
  {
    if a != [] {
      SameLinesElsewhere(a[1..], b[1..], u, p);
    }
  }

  /** Deleting removes exactly the (user, product) line. */
  lemma DropLineEffect(cart: seq<CartLine>, user: UserId, pid: ProductId)
    requires KeysUnique(cart) && FindLine(cart, user, pid).Some?
    ensures KeysUnique(DropLine(cart, user, pid))
    ensures FindLine(DropLine(cart, user, pid), user, pid).None?
    ensures forall u, p | u != user || p != pid ::
      LineQuantity(DropLine(cart, user, pid), u, p) == LineQuantity(cart, u, p)
    ensures CartValid(cart) ==> CartValid(DropLine(cart, user, pid))
  {
    var i := FindLine(cart, user, pid).value;
    var r := DropLine(cart, user, pid);
    assert forall j | 0 <= j < |r| :: r[j] == if j < i then cart[j] else cart[j + 1];
    assert KeysUnique(r) by {
      forall j, k | 0 <= j < k < |r| ensures !SameKey(r[j], r[k]) {
        if k >= i { assert r[k] == cart[k + 1]; }
        if j >= i { assert r[j] == cart[j + 1]; }
      }
    }
    forall j | 0 <= j < |r| ensures !(r[j].user == user && r[j].product == pid) {
      if j < i { assert !SameKey(cart[j], cart[i]); } else { assert !SameKey(cart[i], cart[j + 1]); }
    }
    forall u, p | u != user || p != pid
      ensures LineQuantity(r, u, p) == LineQuantity(cart, u, p)
    {
      match FindLine(cart, u, p)
      case None =>
        assert forall j | 0 <= j < |r| :: !(r[j].user == u && r[j].product == p);
      case Some(m) =>
        var j := if m < i then m else m - 1;
        assert r[j] == cart[m];
        FoundAt(r, j);
    }
  }

  /** Updating overwrites a positive quantity and deletes on any other, touching no other line. */
  lemma SetLineEffect(cart: seq<CartLine>, user: UserId, pid: ProductId, q: int)
    requires KeysUnique(cart) && FindLine(cart, user, pid).Some?
    ensures LineQuantity(SetLine(cart, user, pid, q), user, pid) == if q > 0 then q else 0
    ensures forall u, p | u != user || p != pid ::
      LineQuantity(SetLine(cart, user, pid, q), u, p) == LineQuantity(cart, u, p)
    ensures q <= 0 ==> FindLine(SetLine(cart, user, pid, q), user, pid).None?
    ensures CartValid(cart) ==> CartValid(SetLine(cart, user, pid, q))
  {
    var i := FindLine(cart, user, pid).value;
    if q > 0 {
      var r := SetLine(cart, user, pid, q);
      assert forall j | 0 <= j < |r| :: r[j].user == cart[j].user && r[j].product == cart[j].product;
      assert KeysUnique(r) by {
        forall j, k | 0 <= j < k < |r| ensures !SameKey(r[j], r[k]) {
          assert !SameKey(cart[j], cart[k]);
        }
      }
      FoundAt(r, i);
      forall u, p | u != user || p != pid
        ensures LineQuantity(r, u, p) == LineQuantity(cart, u, p)
      {
        SameLinesElsewhere(cart, r, u, p);
      }
    } else {
      DropLineEffect(cart, user, pid);
    }
  }

  /**
   * `add_to_cart` as written: it refuses a missing, unapproved or own
   * product, then adds whatever quantity was posted. The only check left on
   * the quantity is the database's: an unsigned column refuses a line that
   * would go below zero.
   */
  function AddToCartAsWritten(stock: map<ProductId, Product>, cart: seq<CartLine>, user: UserId, pid: ProductId, q: int)
    : (r: Result<seq<CartLine>, StoreError>)
    ensures r.Success? <==>
      pid in stock && stock[pid].approval == Approved && stock[pid].seller != user
      && LineQuantity(cart, user, pid) + q >= 0
    ensures r == Failure(StorageRejected) <==>
      pid in stock && stock[pid].approval == Approved && stock[pid].seller != user
      && LineQuantity(cart, user, pid) + q < 0
    ensures r.Success? ==> r.value == AddLine(cart, user, pid, q)
  {
    if pid !in stock then Failure(NotFound)
    else if stock[pid].approval != Approved then Failure(NotApproved)
    else if stock[pid].seller == user then Failure(OwnProduct)
    else if LineQuantity(cart, user, pid) + q < 0 then Failure(StorageRejected)
    else Success(AddLine(cart, user, pid, q))
  }

  /** As written, posting a quantity of 0 creates a cart line of quantity 0. */
  lemma AddToCartAsWrittenAcceptsZero(stock: map<ProductId, Product>, user: UserId, pid: ProductId)
    requires pid in stock && stock[pid].approval == Approved && stock[pid].seller != user
    ensures AddToCartAsWritten(stock, [], user, pid, 0) == Success([CartLine(user, pid, 0)])
    ensures CartValid([]) && !CartValid(AddToCartAsWritten(stock, [], user, pid, 0).value)
  {
    var line := [CartLine(user, pid, 0)];
    assert line + [] == line;
    assert line[0].quantity < 1;
  }

  /**
   * `add_to_cart` with the quantity checked: the refusals of the view, then
   * a refusal of quantities below one, so that the cart stays valid.
   */
  function AddToCart(stock: map<ProductId, Product>, cart: seq<CartLine>, user: UserId, pid: ProductId, q: int)
    : (r: Result<seq<CartLine>, StoreError>)
    requires CartValid(cart)
    ensures r == Failure(NotFound) <==> pid !in stock
    ensures r == Failure(NotApproved) <==> pid in stock && stock[pid].approval != Approved
    ensures r == Failure(OwnProduct) <==> pid in stock && stock[pid].approval == Approved && stock[pid].seller == user
    ensures r == Failure(InvalidQuantity) <==>
      pid in stock && stock[pid].approval == Approved && stock[pid].seller != user && q < 1
    ensures r.Success? <==> pid in stock && stock[pid].approval == Approved && stock[pid].seller != user && q >= 1
    ensures r.Success? ==> r == AddToCartAsWritten(stock, cart, user, pid, q)
    ensures r.Success? ==> CartValid(r.value)
    ensures r.Success? ==> LineQuantity(r.value, user, pid) == LineQuantity(cart, user, pid) + q
    ensures r.Success? ==> forall u, p | u != user || p != pid :: LineQuantity(r.value, u, p) == LineQuantity(cart, u, p)
  {
    if pid !in stock then Failure(NotFound)
    else if stock[pid].approval != Approved then Failure(NotApproved)
    else if stock[pid].seller == user then Failure(OwnProduct)
    else if q < 1 then Failure(InvalidQuantity)
    else
      AddLineEffect(cart, user, pid, q);
      Success(AddLine(cart, user, pid, q))
  }
}
