/** The arithmetic and routing of `checkout` and `process_payment`. Prices
    are `Decimal` rupees with two places, so every amount here is an
    integer number of paise; the 18% tax is exact in hundredths of a paisa. */
module Checkout {
  import opened Optional
  import opened Text
  import opened ProductModels

  /** What a cart line adds to the subtotal: `price * quantity`, skipped when
      the price is NULL or zero (`if item.product.price` is false for both) */
  function LineValue(line: CartItem): int {
    match line.product.price
    case None => 0
    case Some(p) => if p != 0 then p * line.quantity else 0
  }

  /** `sum(item.product.price * item.quantity for item in cart_items if item.product.price)` */
  function Subtotal(items: seq<CartItem>, user: nat): int {
    if items == [] then 0
    else (if items[0].owner == user then LineValue(items[0]) else 0) + Subtotal(items[1..], user)
  }

  /** The sum without the truthiness test: every priced line at price times quantity */
  function PricedTotal(items: seq<CartItem>, user: nat): int {
    if items == [] then 0
    else
      (if items[0].owner == user && items[0].product.price.Some?
       then items[0].product.price.value * items[0].quantity else 0)
      + PricedTotal(items[1..], user)
  }

  /** Skipping zero prices changes nothing: the subtotal is the sum over
      every line that has a price. */
  lemma {:induction false} SubtotalSkipsOnlyNothing(items: seq<CartItem>, user: nat)
    ensures Subtotal(items, user) == PricedTotal(items, user)
  {
    if items != [] {
      SubtotalSkipsOnlyNothing(items[1..], user);
    }
  }

  /** With no negative prices the subtotal is not negative. */
  lemma {:induction false} SubtotalNonNegative(items: seq<CartItem>, user: nat)
    requires forall i :: 0 <= i < |items| && items[i].product.price.Some? ==> items[i].product.price.value >= 0
    ensures Subtotal(items, user) >= 0
  {
    if items != [] {
      SubtotalNonNegative(items[1..], user);
    }
  }

  /** Lines of other users' carts do not reach the subtotal. */
  lemma {:induction false} SubtotalOwnLines(items: seq<CartItem>, user: nat)
    requires forall i :: 0 <= i < |items| ==> items[i].owner != user
    ensures Subtotal(items, user) == 0
  {
    if items != [] {
      SubtotalOwnLines(items[1..], user);
    }
  }

  /** Python's `int()` of a number of hundredths: the quotient by 100,
      truncated toward zero */
  function TruncHundredths(n: int): (q: int)
    ensures n >= 0 ==> 0 <= 100 * q <= n < 100 * q + 100
    ensures n < 0 ==> 100 * q - 100 < n <= 100 * q <= 0
  {
    if n >= 0 then n / 100 else -((-n) / 100)
  }

  /** The amounts of the checkout page: the subtotal in paise, the tax and
      the total in hundredths of a paisa (both exact), and `int(total * 100)` */
  datatype Totals = Totals(subtotal: int, taxHundredths: int, totalHundredths: int, amountInPaise: int)

  /** `tax = subtotal * Decimal('0.18')`, `total = subtotal + tax`,
      `amount_in_paise = int(total * 100)` */
  function TotalsFor(subtotal: int): (t: Totals)
    ensures t.subtotal == subtotal
    ensures t.taxHundredths == 18 * subtotal
    ensures t.totalHundredths == 100 * subtotal + t.taxHundredths
    ensures t.totalHundredths >= 0 ==> 0 <= 100 * t.amountInPaise <= t.totalHundredths < 100 * t.amountInPaise + 100
    ensures t.totalHundredths < 0 ==> 100 * t.amountInPaise - 100 < t.totalHundredths <= 100 * t.amountInPaise <= 0
  {
    Totals(subtotal, 18 * subtotal, 118 * subtotal, TruncHundredths(118 * subtotal))
  }

  /** For a non-negative subtotal the amount charged is `subtotal * 118 / 100`
      with integer division, and it never exceeds the exact total. */
  lemma AmountIsFloorOfTotal(subtotal: int)
    requires subtotal >= 0
    ensures TotalsFor(subtotal).amountInPaise == (subtotal * 118) / 100
    ensures subtotal <= TotalsFor(subtotal).amountInPaise
  {
  }

  /** Rs 999.99 comes to Rs 1179.9882, charged as 117998 paise; a total of
      -1.18 paise (a negative price) truncates toward zero to -1. */
  lemma AmountExamples()
    ensures TotalsFor(99999).amountInPaise == 117998
    ensures TotalsFor(-1).amountInPaise == -1
  {
  }

  /** The order id a checkout without the payment gateway hands out */
  function DemoOrderId(user: nat): (s: string)
    ensures StartsWith(s, "demo_order_")
  {
    "demo_order_" + NatToString(user)
  }

  /** Different users get different demo order ids. */
  lemma DemoOrderIdInjective(u: nat, v: nat)
    requires DemoOrderId(u) == DemoOrderId(v)
    ensures u == v
  {
    assert NatToString(u) == DemoOrderId(u)[11..];
    assert NatToString(v) == DemoOrderId(v)[11..];
    NatToStringValue(u);
    NatToStringValue(v);
  }

  /** `'your_key' not in key.lower()` for both settings, which must exist */
  predicate KeysConfigured(keyId: Option<string>, keySecret: Option<string>) {
    keyId.Some? && keySecret.Some?
    && !Contains(LowerStr(keyId.value), "your_key")
    && !Contains(LowerStr(keySecret.value), "your_key")
  }

  /** A placeholder key, in any letter case, keeps the gateway switched off. */
  lemma PlaceholderKeyIsDemo(keyId: string, keySecret: Option<string>)
    requires Occurs("your_key", LowerStr(keyId))
    ensures !KeysConfigured(Some(keyId), keySecret)
  {
  }

  /** What the payment gateway answered when asked for an order */
  datatype GatewayReply = OrderCreated(orderId: string) | GatewayError

  /** What `checkout` shows */
  datatype CheckoutPage =
      /** no lines in the cart: back to the cart with a warning */
    | EmptyCart
    | CheckoutView(totals: Totals, orderId: string, keyId: string, demoMode: bool)

  /** The user has at least one cart line */
  predicate HasLines(items: seq<CartItem>, user: nat) {
    exists i :: 0 <= i < |items| && items[i].owner == user
  }

  /** `checkout`: the gateway is asked for an order only when both keys are
      configured; `reply` is its answer */
  function CheckoutPageFor(items: seq<CartItem>, user: nat, keyId: Option<string>, keySecret: Option<string>,
                           reply: GatewayReply): (page: CheckoutPage)
    ensures page.EmptyCart? <==> !HasLines(items, user)
    ensures page.CheckoutView? ==> page.totals.subtotal == Subtotal(items, user)
    ensures page.CheckoutView? ==> (page.demoMode <==> !(KeysConfigured(keyId, keySecret) && reply.OrderCreated?))
    ensures page.CheckoutView? && page.demoMode ==> page.orderId == DemoOrderId(user) && page.keyId == "demo_key"
    ensures page.CheckoutView? && !page.demoMode ==> page.orderId == reply.orderId && Some(page.keyId) == keyId
  {
    if !HasLines(items, user) then EmptyCart
    else
      var totals := TotalsFor(Subtotal(items, user));
      if KeysConfigured(keyId, keySecret) && reply.OrderCreated? then
        CheckoutView(totals, reply.orderId, keyId.value, false)
      else
        CheckoutView(totals, DemoOrderId(user), "demo_key", true)
  }

  /** `order_id.startswith('demo_order_') or payment_id.startswith('demo_pay_')` */
  predicate IsDemoPayment(orderId: string, paymentId: string) {
    StartsWith(orderId, "demo_order_") || StartsWith(paymentId, "demo_pay_")
  }

  /** A demo order id always takes the demo branch, whatever the payment id. */
  lemma DemoOrderIsDemoPayment(user: nat, paymentId: string)
    ensures IsDemoPayment(DemoOrderId(user), paymentId)
  {
  }

  /** Ids as the gateway issues them ("order_..." and "pay_...") never take
      the demo branch. */
  lemma GatewayIdsAreNotDemo(orderId: string, paymentId: string)
    requires StartsWith(orderId, "order_") && StartsWith(paymentId, "pay_")
    ensures !IsDemoPayment(orderId, paymentId)
  {
    assert orderId[0] == 'o';
    assert paymentId[0] == 'p';
  }

  /** `payment_id or order_id`: the id the success page shows after a demo payment */
  function DemoSuccessId(orderId: string, paymentId: string): (id: string)
    ensures id == paymentId || id == orderId
    ensures id == orderId <==> paymentId == [] || paymentId == orderId
  {
    if paymentId != [] then paymentId else orderId
  }

  /** The id fits the `<str:order_id>` segment of the success page's route:
      it is not empty and holds no '/'. Any other id makes the `redirect`
      raise `NoReverseMatch`. */
  predicate Routable(id: string) {
    id != [] && forall i :: 0 <= i < |id| ==> id[i] != '/'
  }

  /** A demo order id, as checkout hands it out, always fits the route: a
      demo payment posted with no payment id reaches the success page. */
  lemma DemoOrderIdRoutable(user: nat)
    ensures Routable(DemoSuccessId(DemoOrderId(user), ""))
  {
    var s := DemoOrderId(user);
    forall i | 0 <= i < |s| ensures s[i] != '/' {
      if i >= 11 {
        assert s[i] == NatToString(user)[i - 11];
      }
    }
  }

  /** A payment id with a '/' does not fit the route, whatever the order id. */
  lemma SlashIsNotRoutable(orderId: string, paymentId: string)
    requires exists i :: 0 <= i < |paymentId| && paymentId[i] == '/'
    ensures !Routable(DemoSuccessId(orderId, paymentId))
  {
  }
}
