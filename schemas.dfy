/**
 * The zod schemas for delivery times, ratings and orders, read as
 * validators: each predicate holds exactly when `safeParse` succeeds.
 *
 * Numbers are reals; `.int()` holds for whole numbers. String lengths count
 * characters. Optional fields are `Option`s; an enum field is the string
 * that was sent, so that values outside the enum can be rejected.
 */
module Schemas {
  import opened Wrappers

  predicate IsInt(x: real) { x == x.Floor as real }

  predicate IsHex(c: char) { '0' <= c <= '9' || 'a' <= c <= 'f' || 'A' <= c <= 'F' }

  /** `z.string().uuid()`: five groups of 8, 4, 4, 4 and 12 hex digits joined by '-'. */
  predicate IsUuid(s: string)
  {
    |s| == 36 && forall i :: 0 <= i < 36 ==>
      if i == 8 || i == 13 || i == 18 || i == 23 then s[i] == '-' else IsHex(s[i])
  }

  /** `.max(n).optional()` on a string: absent, or at most `n` characters. */
  predicate OptionalMaxLength(s: Option<string>, n: nat)
  {
    s.None? || |s.value| <= n
  }

  // --------------------------------------------------------- delivery time

  datatype DeliveryTime = DeliveryTime(min: real, max: real)

  /** `DeliveryTimeSchema`: whole, non-negative minutes, with the maximum not below the minimum. */
  predicate ValidDeliveryTime(d: DeliveryTime)
  {
    IsInt(d.min) && d.min >= 0.0 && IsInt(d.max) && d.max >= 0.0 && d.max >= d.min
  }

  /** The refinement is the only cross-field rule: swapping a valid window's ends is rejected unless they are equal. */
  lemma DeliveryTimeSwap(d: DeliveryTime)
    requires ValidDeliveryTime(d)
    ensures ValidDeliveryTime(DeliveryTime(d.max, d.min)) <==> d.min == d.max
  {
  }

  // ---------------------------------------------------------------- ratings

  datatype StoreRating = StoreRating(targetUserId: string, rating: real, comment: Option<string>, customerName: Option<string>)

  datatype ProductRating = ProductRating(targetUserId: string, productId: string, rating: real,
                                         comment: Option<string>, customerName: Option<string>)

  /** `StoreRatingSchema`. */
  predicate ValidStoreRating(r: StoreRating)
  {
    IsUuid(r.targetUserId) && 1.0 <= r.rating <= 5.0
    && OptionalMaxLength(r.comment, 500) && OptionalMaxLength(r.customerName, 100)
  }

  /** `ProductRatingSchema`: the store rating's rules plus a product id. */
  predicate ValidProductRating(r: ProductRating)
  {
    IsUuid(r.targetUserId) && IsUuid(r.productId) && 1.0 <= r.rating <= 5.0
    && OptionalMaxLength(r.comment, 500) && OptionalMaxLength(r.customerName, 100)
  }

  /** A product rating is a store rating of the same target with a valid product id. */
  lemma ProductRatingExtendsStoreRating(r: ProductRating)
    ensures ValidProductRating(r) <==>
      ValidStoreRating(StoreRating(r.targetUserId, r.rating, r.comment, r.customerName)) && IsUuid(r.productId)
  {
  }

  /** Ratings outside 1 to 5 are rejected whatever else is sent; the rating need not be whole. */
  lemma RatingRange(r: StoreRating)
    ensures (r.rating < 1.0 || r.rating > 5.0) ==> !ValidStoreRating(r)
    ensures ValidStoreRating(r) ==> ValidStoreRating(r.(rating := 4.5))
  {
  }

  // ----------------------------------------------------------------- orders

  datatype Addon = Addon(id: string, name: string, price: real)

  datatype OrderItem = OrderItem(productId: string, name: string, price: real, quantity: real,
                                 notes: Option<string>, addons: Option<seq<Addon>>)

  predicate ValidAddon(a: Addon)
  {
    IsUuid(a.id) && a.price >= 0.0
  }

  /** `OrderItemSchema`. */
  predicate ValidOrderItem(item: OrderItem): (b: bool)
    ensures b ==> |item.productId| == 36 && item.quantity >= 1.0 && item.price >= 0.0
    ensures b && item.addons.Some? ==> forall a :: a in item.addons.value ==> a.price >= 0.0
  {
    IsUuid(item.productId) && item.price >= 0.0 && IsInt(item.quantity) && item.quantity >= 1.0
    && (item.addons.Some? ==> forall k :: 0 <= k < |item.addons.value| ==> ValidAddon(item.addons.value[k]))
  }

  datatype Order = Order(
    userId: string,
    customerName: string,
    customerPhone: string,
    deliveryMode: string,
    street: Option<string>,
    houseNumber: Option<string>,
    neighborhood: Option<string>,
    complement: Option<string>,
    paymentMethod: string,
    changeFor: Option<real>,
    subtotal: real,
    deliveryFee: real,
    total: real,
    observations: Option<string>,
    items: seq<OrderItem>)

  predicate IsDeliveryMode(m: string) { m == "delivery" || m == "pickup" }

  predicate IsPaymentMethod(m: string) { m == "pix" || m == "card" || m == "cash" }

  /** `OrderSchema`. The address fields stay optional even for delivery, and the item list may be empty. */
  predicate ValidOrder(o: Order): (b: bool)
    ensures b ==> |o.userId| == 36 && o.customerName != [] && o.total >= 0.0
    ensures b ==> forall it :: it in o.items ==> it.quantity >= 1.0 && it.price >= 0.0
  {
    IsUuid(o.userId) && |o.customerName| >= 2 && |o.customerPhone| >= 8
    && IsDeliveryMode(o.deliveryMode) && IsPaymentMethod(o.paymentMethod)
    && o.subtotal >= 0.0 && o.deliveryFee >= 0.0 && o.total >= 0.0
    && forall k :: 0 <= k < |o.items| ==> ValidOrderItem(o.items[k])
  }

  /** Items are checked one by one: dropping any of them, down to none at all, keeps a valid order valid. */
  lemma OrderItemsIndependent(o: Order, keep: seq<OrderItem>)
    requires ValidOrder(o)
    requires forall k :: 0 <= k < |keep| ==> keep[k] in o.items
    ensures ValidOrder(o.(items := keep))
    ensures ValidOrder(o.(items := []))
  {
    forall k | 0 <= k < |keep| ensures ValidOrderItem(keep[k]) {
      var j :| 0 <= j < |o.items| && o.items[j] == keep[k];
    }
  }

  /** Neither the totals nor the payment method are checked against each other: the schema trusts the client's sums. */
  lemma OrderTotalsUnchecked(o: Order, t: real)
    requires ValidOrder(o) && t >= 0.0
    ensures ValidOrder(o.(total := t))
  {
  }

  /** A one-letter name, a missing phone and an unknown delivery mode are each rejected. */
  lemma OrderRejections(o: Order)
    ensures !ValidOrder(o.(customerName := "J"))
    ensures !ValidOrder(o.(customerPhone := ""))
    ensures !ValidOrder(o.(deliveryMode := "drone"))
  {
    assert "drone" != "delivery" && "drone" != "pickup" by {
      assert "drone"[1] == 'r';
      assert "delivery"[1] == 'e';
      assert "pickup"[0] == 'p';
    }
  }

  /** An item needs a whole quantity of at least one and a non-negative price. */
  lemma OrderItemRejections(item: OrderItem)
    ensures !ValidOrderItem(item.(quantity := 0.0))
    ensures !ValidOrderItem(item.(quantity := 1.5))
    ensures !ValidOrderItem(item.(price := -5.0))
  {
    assert (1.5).Floor == 1;
  }
}
