/** The shopping cart: `add_to_cart`, `update_cart`, `clear_cart`,
    `checkout` and `process_payment`. Each user has at most one cart, so a
    cart line names its cart by the owning user. */
module CartViews {
  import opened Optional
  import opened ProductModels
  import opened Checkout

  /** The line of `user` for `pid` found at `k` is the one `FindLine` returns. */
  lemma FindLineAt(items: seq<CartItem>, user: nat, pid: nat, k: nat)
    requires k < |items| && items[k].owner == user && items[k].product.id == pid
    requires forall i :: 0 <= i < k ==> !(items[i].owner == user && items[i].product.id == pid)
    ensures FindLine(items, user, pid) == Some(k)
  {
  }

  /** `items[..k] + items[k + 1..]`: the line at `k` deleted */
  function Delete(items: seq<CartItem>, k: nat): (r: seq<CartItem>)
    requires k < |items|
    ensures |r| == |items| - 1
    ensures forall i :: 0 <= i < k ==> r[i] == items[i]
    ensures forall i :: k <= i < |r| ==> r[i] == items[i + 1]
  {
    items[..k] + items[k + 1..]
  }

  /** Putting a line back in its place, with the same key, owner and
      product, keeps the lines unique and changes only that line's quantity. */
  lemma QuantityReplace(items: seq<CartItem>, k: nat, line: CartItem, u: nat, pid: nat)
    requires UniqueLines(items) && k < |items|
    requires line.id == items[k].id && line.owner == items[k].owner && line.product.id == items[k].product.id
    ensures UniqueLines(items[k := line])
    ensures Quantity(items[k := line], u, pid)
            == if line.owner == u && line.product.id == pid then line.quantity else Quantity(items, u, pid)
  {
    var r := items[k := line];
    if line.owner == u && line.product.id == pid {
      forall i | 0 <= i < k ensures !(r[i].owner == u && r[i].product.id == pid) {
        assert !(items[i].owner == items[k].owner && items[i].product.id == items[k].product.id);
      }
      FindLineAt(r, u, pid, k);
    } else {
      match FindLine(items, u, pid)
      case None =>
        forall i | 0 <= i < |r| ensures !(r[i].owner == u && r[i].product.id == pid) {
          if i != k {
            assert r[i] == items[i];
          }
        }
      case Some(j) =>
        assert j != k;
        FindLineAt(r, u, pid, j);
    }
  }

  /** Deleting a line keeps the lines unique; the deleted product's quantity
      drops to 0 and every other quantity stays. */
  lemma QuantityDelete(items: seq<CartItem>, k: nat, u: nat, pid: nat)
    requires UniqueLines(items) && k < |items|
    ensures UniqueLines(Delete(items, k))
    ensures Quantity(Delete(items, k), u, pid)
            == if items[k].owner == u && items[k].product.id == pid then 0 else Quantity(items, u, pid)
  {
    var r := Delete(items, k);
    forall i, j | 0 <= i < j < |r|
      ensures r[i].id != r[j].id && !(r[i].owner == r[j].owner && r[i].product.id == r[j].product.id)
    {
      var i' := if i < k then i else i + 1;
      var j' := if j < k then j else j + 1;
      assert r[i] == items[i'] && r[j] == items[j'] && i' < j';
    }
    if items[k].owner == u && items[k].product.id == pid {
      forall i | 0 <= i < |r| ensures !(r[i].owner == u && r[i].product.id == pid) {
        var i' := if i < k then i else i + 1;
        assert r[i] == items[i'] && i' != k;
      }
    } else {
      match FindLine(items, u, pid)
      case None =>
        forall i | 0 <= i < |r| ensures !(r[i].owner == u && r[i].product.id == pid) {
          var i' := if i < k then i else i + 1;
          assert r[i] == items[i'];
        }
      case Some(j) =>
        assert j != k;
        var m := if j < k then j else j - 1;
        assert r[m] == items[j];
        forall i | 0 <= i < m ensures !(r[i].owner == u && r[i].product.id == pid) {
          var i' := if i < k then i else i + 1;
          assert r[i] == items[i'] && i' < j;
        }
        FindLineAt(r, u, pid, m);
    }
  }

  /** Appending a line for a product the cart does not hold yet, under a
      fresh key, keeps the lines unique and sets only that product's quantity. */
  lemma QuantityAppend(items: seq<CartItem>, line: CartItem, u: nat, pid: nat)
    requires UniqueLines(items)
    requires FindLine(items, line.owner, line.product.id).None?
    requires forall i :: 0 <= i < |items| ==> items[i].id != line.id
    ensures UniqueLines(items + [line])
    ensures Quantity(items + [line], u, pid)
            == if line.owner == u && line.product.id == pid then line.quantity else Quantity(items, u, pid)
  {
    var r := items + [line];
    forall i, j | 0 <= i < j < |r|
      ensures r[i].id != r[j].id && !(r[i].owner == r[j].owner && r[i].product.id == r[j].product.id)
    {
      assert r[i] == items[i];
      if j == |items| {
        assert r[j] == line;
      } else {
        assert r[j] == items[j];
      }
    }
    if line.owner == u && line.product.id == pid {
      FindLineAt(r, u, pid, |items|);
    } else {
      match FindLine(items, u, pid)
      case None =>
        forall i | 0 <= i < |r| ensures !(r[i].owner == u && r[i].product.id == pid) {
          if i < |items| {
            assert r[i] == items[i];
          }
        }
      case Some(j) =>
        assert r[j] == items[j];
        FindLineAt(r, u, pid, j);
    }
  }

  /** `add_to_cart` on the cart lines: one more of an existing line, or a new
      line of quantity 1 under the key `freshId` */
  function AddLine(items: seq<CartItem>, user: nat, product: Product, freshId: nat): seq<CartItem> {
    match FindLine(items, user, product.id)
    case Some(k) => items[k := items[k].(quantity := items[k].quantity + 1)]
    case None => items + [CartItem(freshId, user, product, 1)]
  }

  /** Adding a product raises its quantity in the user's cart by one, and the
      cart's item count by one; nothing else changes and the lines stay
      unique. A new line appears exactly when the cart had none for it. */
  lemma AddLineSpec(items: seq<CartItem>, user: nat, product: Product, freshId: nat, u: nat, pid: nat)
    requires UniqueLines(items)
    requires forall i :: 0 <= i < |items| ==> items[i].id < freshId
    ensures UniqueLines(AddLine(items, user, product, freshId))
    ensures Quantity(AddLine(items, user, product, freshId), u, pid)
            == Quantity(items, u, pid) + (if u == user && pid == product.id then 1 else 0)
    ensures TotalItems(AddLine(items, user, product, freshId), u)
            == TotalItems(items, u) + (if u == user then 1 else 0)
    ensures |AddLine(items, user, product, freshId)|
            == |items| + (if FindLine(items, user, product.id).None? then 1 else 0)
  {
    match FindLine(items, user, product.id)
    case Some(k) =>
      var line := items[k].(quantity := items[k].quantity + 1);
      QuantityReplace(items, k, line, u, pid);
      TotalItemsUpdate(items, k, line, u);
    case None =>
      var line := CartItem(freshId, user, product, 1);
      QuantityAppend(items, line, u, pid);
      TotalItemsAppend(items, line, u);
  }

  /** The `action` field of an `update_cart` request */
  datatype CartAction = Increase | Decrease | Remove | NoAction

  /** Only a POST acts, and only with one of the three known actions */
  function ActionOf(isPost: bool, action: Option<string>): (a: CartAction)
    ensures a != NoAction ==> isPost && action.Some?
    ensures a == Increase <==> isPost && action == Some("increase")
    ensures a == Decrease <==> isPost && action == Some("decrease")
    ensures a == Remove <==> isPost && action == Some("remove")
  {
    if !isPost || action.None? then NoAction
    else if action.value == "increase" then Increase
    else if action.value == "decrease" then Decrease
    else if action.value == "remove" then Remove
    else NoAction
  }

  /** The action deletes the line: a removal, or a decrease at quantity 1 or less */
  predicate Deletes(quantity: nat, action: CartAction) {
    action == Remove || (action == Decrease && quantity <= 1)
  }

  /** `update_cart` on the line at `k` */
  function ApplyAction(items: seq<CartItem>, k: nat, action: CartAction): seq<CartItem>
    requires k < |items|
  {
    var q := items[k].quantity;
    match action
    case Increase => items[k := items[k].(quantity := q + 1)]
    case Decrease => if q > 1 then items[k := items[k].(quantity := q - 1)] else Delete(items, k)
    case Remove => Delete(items, k)
    case NoAction => items
  }

  /** The quantity the line holds after the action: 0 once deleted */
  function QuantityAfter(quantity: nat, action: CartAction): (q: nat)
    ensures Deletes(quantity, action) ==> q == 0
    ensures action == Increase ==> q == quantity + 1
    ensures action == Decrease && quantity > 1 ==> q == quantity - 1
    ensures action == NoAction ==> q == quantity
  {
    match action
    case Increase => quantity + 1
    case Decrease => if quantity > 1 then quantity - 1 else 0
    case Remove => 0
    case NoAction => quantity
  }

  /** An action on one line moves that product's quantity, and the cart's
      item count, to the new quantity; it deletes the line exactly when
      `Deletes` says so; other products and carts are untouched and the lines
      stay unique. */
  lemma ApplyActionSpec(items: seq<CartItem>, k: nat, action: CartAction, u: nat, pid: nat)
    requires UniqueLines(items) && k < |items|
    ensures UniqueLines(ApplyAction(items, k, action))
    ensures Quantity(ApplyAction(items, k, action), u, pid)
            == if items[k].owner == u && items[k].product.id == pid
               then QuantityAfter(items[k].quantity, action) else Quantity(items, u, pid)
    ensures TotalItems(ApplyAction(items, k, action), u) + (if items[k].owner == u then items[k].quantity else 0)
            == TotalItems(items, u) + (if items[k].owner == u then QuantityAfter(items[k].quantity, action) else 0)
    ensures |ApplyAction(items, k, action)| == |items| - (if Deletes(items[k].quantity, action) then 1 else 0)
  {
    assert FindLine(items, items[k].owner, items[k].product.id) == Some(k) by {
      forall i | 0 <= i < k ensures !(items[i].owner == items[k].owner && items[i].product.id == items[k].product.id) {
      }
      FindLineAt(items, items[k].owner, items[k].product.id, k);
    }
    var q := items[k].quantity;
    if Deletes(q, action) {
      QuantityDelete(items, k, u, pid);
      TotalItemsDelete(items, k, u);
    } else if action == NoAction {
    } else {
      var line := items[k].(quantity := QuantityAfter(q, action));
      assert ApplyAction(items, k, action) == items[k := line];
      QuantityReplace(items, k, line, u, pid);
      TotalItemsUpdate(items, k, line, u);
    }
  }

  /** Every line left after an action is a line that was there before, or
      the acted-on line under its own key and owner. */
  lemma ApplyActionLines(items: seq<CartItem>, k: nat, action: CartAction)
    requires k < |items|
    ensures forall i :: 0 <= i < |ApplyAction(items, k, action)| ==>
              exists j :: 0 <= j < |items| && ApplyAction(items, k, action)[i].id == items[j].id
                                           && ApplyAction(items, k, action)[i].owner == items[j].owner
  {
    var r := ApplyAction(items, k, action);
    forall i | 0 <= i < |r|
      ensures exists j :: 0 <= j < |items| && r[i].id == items[j].id && r[i].owner == items[j].owner
    {
      if |r| == |items| {
        assert r[i].id == items[i].id && r[i].owner == items[i].owner;
      } else if i < k {
        assert r[i] == items[i];
      } else {
        assert r[i] == items[i + 1];
      }
    }
  }

  /** `cart.items.all().delete()` */
  function RemoveOwner(items: seq<CartItem>, user: nat): (r: seq<CartItem>)
    ensures forall line :: line in r <==> line in items && line.owner != user
  {
    if items == [] then []
    else (if items[0].owner == user then [] else [items[0]]) + RemoveOwner(items[1..], user)
  }

  /** Clearing a cart keeps the remaining lines unique. */
  lemma {:induction false} RemoveOwnerUnique(items: seq<CartItem>, user: nat)
    requires UniqueLines(items)
    ensures UniqueLines(RemoveOwner(items, user))
  {
    if items != [] {
      RemoveOwnerUnique(items[1..], user);
      var rest := RemoveOwner(items[1..], user);
      if items[0].owner != user {
        var r := RemoveOwner(items, user);
        assert r == [items[0]] + rest;
        forall j | 1 <= j < |r|
          ensures r[0].id != r[j].id && !(r[0].owner == r[j].owner && r[0].product.id == r[j].product.id)
        {
          assert r[j] in rest;
          var k :| 1 <= k < |items| && items[k] == r[j];
        }
      }
    }
  }

  /** Clearing a cart empties it and leaves every other cart's item count
      as it was. */
  lemma {:induction false} RemoveOwnerTotals(items: seq<CartItem>, user: nat, u: nat)
    ensures TotalItems(RemoveOwner(items, user), user) == 0
    ensures u != user ==> TotalItems(RemoveOwner(items, user), u) == TotalItems(items, u)
  {
    if items != [] {
      var rest := RemoveOwner(items[1..], user);
      RemoveOwnerTotals(items[1..], user, u);
      if items[0].owner == user {
        assert RemoveOwner(items, user) == rest;
      } else {
        var r := RemoveOwner(items, user);
        assert r == [items[0]] + rest && r[0] == items[0] && r[1..] == rest;
      }
    }
  }

  /** A cleared cart has no lines left. */
  lemma RemoveOwnerEmpties(items: seq<CartItem>, user: nat)
    ensures !HasLines(RemoveOwner(items, user), user)
  {
    var r := RemoveOwner(items, user);
    forall i | 0 <= i < |r| ensures r[i].owner != user {
      assert r[i] in r;
    }
  }

  /** What the cart views answer */
  datatype CartReply =
      /** `get_object_or_404` found no row */
    | NotFound
      /** `add_to_cart`: a new line was created ("added to cart") */
    | Added
      /** `add_to_cart`: an existing line was incremented ("updated quantity") */
    | QuantityUpdated
      /** back to the cart page */
    | ToCart

  /** What `process_payment` answers */
  datatype PaymentReply =
    | PaymentSuccess(orderId: string)
      /** back to the checkout page, with an error message unless the
          request was not a POST */
    | ToCheckout
      /** the demo branch's `redirect` raised `NoReverseMatch`, which nothing
          catches: a server error, after the cart was emptied */
    | PaymentError

  /** The cart and cart-line tables */
  class Shop {
    /** The users who have a cart row */
    var carts: set<nat>
    var items: seq<CartItem>
    /** The next primary key the cart-line table hands out */
    var nextId: nat

    ghost predicate Valid()
      reads this
    {
      UniqueLines(items)
      && forall i :: 0 <= i < |items| ==> items[i].owner in carts && items[i].id < nextId
    }

    constructor ()
      ensures Valid()
      ensures carts == {} && items == [] && nextId == 1
    {
      carts := {};
      items := [];
      nextId := 1;
    }

    /** `add_to_cart`: 404 for an unknown product; otherwise the user's cart
        is created if missing and the product added once */
    method AddToCart(user: nat, catalogue: seq<Product>, productId: nat) returns (reply: CartReply)
      requires Valid()
      modifies this
      ensures Valid()
      ensures FindProduct(catalogue, productId).None? ==>
                reply == NotFound && carts == old(carts) && items == old(items) && nextId == old(nextId)
      ensures FindProduct(catalogue, productId).Some? ==>
                var product := FindProduct(catalogue, productId).value;
                carts == old(carts) + {user}
                && items == AddLine(old(items), user, product, old(nextId))
                && (reply == Added <==> FindLine(old(items), user, productId).None?)
                && (reply == Added || reply == QuantityUpdated)
                && nextId == old(nextId) + (if reply == Added then 1 else 0)
    {
      var found := FindProduct(catalogue, productId);
      if found.None? {
        return NotFound;
      }
      var product := found.value;
      carts := carts + {user};
      AddLineSpec(items, user, product, nextId, user, productId);
      match FindLine(items, user, productId)
      case Some(k) =>
        items := AddLine(items, user, product, nextId);
        reply := QuantityUpdated;
      case None =>
        items := AddLine(items, user, product, nextId);
        nextId := nextId + 1;
        reply := Added;
    }

    /** `update_cart`: 404 unless `itemId` is a line of the user's cart;
        otherwise the posted action is applied */
    method UpdateCart(user: nat, itemId: nat, isPost: bool, action: Option<string>) returns (reply: CartReply)
      requires Valid()
      modifies this
      ensures Valid()
      ensures carts == old(carts) && nextId == old(nextId)
      ensures FindOwnedLine(old(items), user, itemId).None? ==> reply == NotFound && items == old(items)
      ensures FindOwnedLine(old(items), user, itemId).Some? ==>
                reply == ToCart
                && items == ApplyAction(old(items), FindOwnedLine(old(items), user, itemId).value, ActionOf(isPost, action))
    {
      match FindOwnedLine(items, user, itemId)
      case None =>
        reply := NotFound;
      case Some(k) =>
        var a := ActionOf(isPost, action);
        ApplyActionSpec(items, k, a, user, 0);
        ApplyActionLines(items, k, a);
        items := ApplyAction(items, k, a);
        reply := ToCart;
    }

    /** `clear_cart`: 404 when the user has no cart row; otherwise every line
        of the cart is deleted */
    method ClearCart(user: nat) returns (reply: CartReply)
      requires Valid()
      modifies this
      ensures Valid()
      ensures carts == old(carts) && nextId == old(nextId)
      ensures user !in carts ==> reply == NotFound && items == old(items)
      ensures user in carts ==> reply == ToCart && items == RemoveOwner(old(items), user)
    {
      if user !in carts {
        return NotFound;
      }
      RemoveOwnerUnique(items, user);
      items := RemoveOwner(items, user);
      reply := ToCart;
    }

    /** `checkout`: the cart is created if missing, then the page is built
        from the user's lines; `reply` is the payment gateway's answer */
    method ShowCheckout(user: nat, keyId: Option<string>, keySecret: Option<string>, reply: GatewayReply)
      returns (page: CheckoutPage)
      requires Valid()
      modifies this
      ensures Valid()
      ensures carts == old(carts) + {user} && items == old(items) && nextId == old(nextId)
      ensures page == CheckoutPageFor(items, user, keyId, keySecret, reply)
    {
      carts := carts + {user};
      page := CheckoutPageFor(items, user, keyId, keySecret, reply);
    }

    /** `process_payment`. A demo order or payment id empties the cart without
        any signature check. Otherwise `signatureValid` is the gateway's
        verdict on the signature; a valid one empties the cart, and a user
        without a cart row is sent back to checkout. Either way the success
        redirect needs an id that fits its route: in the demo branch an id
        that does not is an uncaught error, in the real branch the view's own
        `except` sends the user back to checkout. The cart is emptied first
        in both. */
    method ProcessPayment(user: nat, isPost: bool, orderId: string, paymentId: string, signatureValid: bool)
      returns (reply: PaymentReply)
      requires Valid()
      modifies this
      ensures Valid()
      ensures carts == old(carts) && nextId == old(nextId)
      ensures !isPost ==> reply == ToCheckout && items == old(items)
      ensures isPost && IsDemoPayment(orderId, paymentId) ==>
                items == (if user in carts then RemoveOwner(old(items), user) else old(items))
      ensures isPost && IsDemoPayment(orderId, paymentId) && Routable(DemoSuccessId(orderId, paymentId)) ==>
                reply == PaymentSuccess(DemoSuccessId(orderId, paymentId))
      ensures isPost && IsDemoPayment(orderId, paymentId) && !Routable(DemoSuccessId(orderId, paymentId)) ==>
                reply == PaymentError
      ensures isPost && !IsDemoPayment(orderId, paymentId) && signatureValid && user in carts ==>
                items == RemoveOwner(old(items), user)
                && reply == (if Routable(paymentId) then PaymentSuccess(paymentId) else ToCheckout)
      ensures isPost && !IsDemoPayment(orderId, paymentId) && !(signatureValid && user in carts) ==>
                reply == ToCheckout && items == old(items)
    {
      if !isPost {
        return ToCheckout;
      }
      if IsDemoPayment(orderId, paymentId) {
        if user in carts {
          RemoveOwnerUnique(items, user);
          items := RemoveOwner(items, user);
        }
        if !Routable(DemoSuccessId(orderId, paymentId)) {
          return PaymentError;
        }
        return PaymentSuccess(DemoSuccessId(orderId, paymentId));
      }
      if signatureValid && user in carts {
        RemoveOwnerUnique(items, user);
        items := RemoveOwner(items, user);
        if !Routable(paymentId) {
          return ToCheckout;
        }
        return PaymentSuccess(paymentId);
      }
      reply := ToCheckout;
    }
  }

  /** Once the cart has been paid for, its checkout page is the empty-cart
      warning. */
  lemma PaidCartIsEmpty(items: seq<CartItem>, user: nat, keyId: Option<string>, keySecret: Option<string>,
                        reply: GatewayReply)
    ensures CheckoutPageFor(RemoveOwner(items, user), user, keyId, keySecret, reply) == EmptyCart
  {
    RemoveOwnerEmpties(items, user);
  }
}
