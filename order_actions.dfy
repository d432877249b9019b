/**
 * The server action that places a checkout order: validate the payload,
 * then write the order row and its item rows.
 */
module OrderActions {
  import opened Wrappers
  import opened Strings
  import opened Schemas
  import NewOrder

  /** A template literal's `${x}`: an absent optional prints as "undefined". */
  function Shown(x: Option<string>): string
  {
    if x.Some? then x.value else "undefined"
  }

  /** `x ? … : …` on an optional string. */
  predicate Truthy(x: Option<string>)
  {
    x.Some? && x.value != []
  }

  /** The `payment_method` column: cash is "money", card is "credit", anything else "pix". */
  function PaymentColumn(m: string): (r: string)
    ensures r in {"money", "credit", "pix"}
  {
    if m == "cash" then "money" else if m == "card" then "credit" else "pix"
  }

  /** The three accepted methods stay apart, and pix stays pix. */
  lemma PaymentColumnDistinguishes(a: string, b: string)
    requires IsPaymentMethod(a) && IsPaymentMethod(b) && a != b
    ensures PaymentColumn(a) != PaymentColumn(b)
    ensures PaymentColumn("pix") == "pix"
  {
  }

  const Pickup: string := "Retirada no Local"

  /** The `customer_address` column. */
  function CustomerAddress(o: Order): string
  {
    if o.deliveryMode == "delivery" then
      Shown(o.street) + ", " + Shown(o.houseNumber) + " - " + Shown(o.neighborhood)
      + (if Truthy(o.complement) then " (" + o.complement.value + ")" else "")
    else Pickup
  }

  /** The part of a delivery address after the street's comma. */
  function AfterStreet(o: Order): string
  {
    " " + Shown(o.houseNumber) + " - " + Shown(o.neighborhood)
    + (if Truthy(o.complement) then " (" + o.complement.value + ")" else "")
  }

  /** A pickup order's address is the fixed pickup text; a delivery order's starts with the street and a comma. */
  lemma CustomerAddressStart(o: Order)
    ensures o.deliveryMode != "delivery" ==> CustomerAddress(o) == Pickup
    ensures o.deliveryMode == "delivery" ==>
      StartsWith(CustomerAddress(o), Shown(o.street) + ",")
  {
    if o.deliveryMode == "delivery" {
      var tail := if Truthy(o.complement) then " (" + o.complement.value + ")" else "";
      CommaSpace();
      SplitAfterComma(Shown(o.street), ", ", ",", " ", Shown(o.houseNumber), " - ", Shown(o.neighborhood), tail);
      ConcatEnds(Shown(o.street) + ",", AfterStreet(o));
    }
  }

  lemma CommaSpace()
    ensures ", " == "," + " "
  {
  }

  /** Regrouping the delivery address after the comma that follows the street. */
  lemma SplitAfterComma(st: string, cs: string, c: string, sp: string, hn: string, dash: string, nb: string, tail: string)
    requires cs == c + sp
    ensures st + cs + hn + dash + nb + tail == (st + c) + (sp + hn + dash + nb + tail)
  {
  }

  /** A delivery address ends with the complement in parentheses when there is one, else with the neighbourhood. */
  lemma CustomerAddressEnd(o: Order)
    requires o.deliveryMode == "delivery"
    ensures Truthy(o.complement) ==> EndsWith(CustomerAddress(o), " (" + o.complement.value + ")")
    ensures !Truthy(o.complement) ==> EndsWith(CustomerAddress(o), " - " + Shown(o.neighborhood))
  {
    var st, hn, nb := Shown(o.street), Shown(o.houseNumber), Shown(o.neighborhood);
    if Truthy(o.complement) {
      var tail := " (" + o.complement.value + ")";
      ConcatEnds(st + ", " + hn + " - " + nb, tail);
    } else {
      RegroupEnd(st, ", ", hn, " - ", nb);
      ConcatEnds(st + ", " + hn, " - " + nb);
    }
  }

  lemma RegroupEnd(st: string, cs: string, hn: string, dash: string, nb: string)
    ensures st + cs + hn + dash + nb + "" == (st + cs + hn) + (dash + nb)
  {
  }

  lemma ConcatEnds(a: string, b: string)
    ensures StartsWith(a + b, a) && EndsWith(a + b, b)
  {
    assert (a + b)[..|a|] == a;
    assert (a + b)[|a + b| - |b|..] == b;
  }

  /** The `notes` column: the observations, then the street and number when there is a street. */
  function OrderNotes(o: Order): string
  {
    (if Truthy(o.observations) then "OBS: " + o.observations.value + "\n" else "")
    + (if Truthy(o.street) then "Endereço: " + o.street.value + ", " + Shown(o.houseNumber) else "")
  }

  // ---------------------------------------------------------------------------
  // Items
  // ---------------------------------------------------------------------------

  /** `addons.reduce((acc, a) => acc + a.price, 0)`. */
  function AddonsSum(addons: seq<Addon>): real
  {
    if addons == [] then 0.0 else AddonsSum(addons[..|addons| - 1]) + addons[|addons| - 1].price
  }

  /** The price of all addons; none at all count as zero. */
  function AddonsPrice(addons: Option<seq<Addon>>): real
  {
    if addons.Some? then AddonsSum(addons.value) else 0.0
  }

  /** The item row's `total`. */
  function ItemTotal(item: OrderItem): real
  {
    (item.price + AddonsPrice(item.addons)) * item.quantity
  }

  lemma {:induction false} AddonsSumNonNegative(addons: seq<Addon>)
    requires forall k :: 0 <= k < |addons| ==> ValidAddon(addons[k])
    ensures AddonsSum(addons) >= 0.0
    decreases |addons|
  {
    if addons != [] {
      var init := addons[..|addons| - 1];
      assert forall k :: 0 <= k < |init| ==> init[k] == addons[k];
      AddonsSumNonNegative(init);
    }
  }

  /**
   * A valid item's total is its unit price plus every addon's price, times
   * the quantity: never negative, and without addons just the price times
   * the quantity.
   */
  lemma ItemTotalBounds(item: OrderItem)
    requires ValidOrderItem(item)
    ensures ItemTotal(item) >= item.price * item.quantity >= 0.0
    ensures item.addons.None? || item.addons.value == [] ==> ItemTotal(item) == item.price * item.quantity
  {
    if item.addons.Some? {
      AddonsSumNonNegative(item.addons.value);
    }
    var extra := AddonsPrice(item.addons);
    assert ItemTotal(item) == item.price * item.quantity + extra * item.quantity;
    assert extra * item.quantity >= 0.0;
  }

  /** `parts.join(sep)`. */
  function JoinWith(parts: seq<string>, sep: string): string
  {
    if parts == [] then [] else if |parts| == 1 then parts[0] else parts[0] + sep + JoinWith(parts[1..], sep)
  }

  function AddonNames(addons: seq<Addon>): (r: seq<string>)
    ensures |r| == |addons| && forall k :: 0 <= k < |r| ==> r[k] == addons[k].name
  {
    seq(|addons|, k requires 0 <= k < |addons| => addons[k].name)
  }

  /** The suffix naming the addons, empty when there are none. */
  function AddonText(addons: Option<seq<Addon>>): string
  {
    if addons.Some? && addons.value != [] then " (Adicionais: " + JoinWith(AddonNames(addons.value), ", ") + ")"
    else ""
  }

  /**
   * The product name is kept as entered when there are no addons; otherwise
   * it is followed by the addons' names, the first one right after the
   * label.
   */
  lemma AddonTextShape(name: string, addons: Option<seq<Addon>>)
    ensures addons.None? || addons.value == [] ==> name + AddonText(addons) == name
    ensures addons.Some? && addons.value != [] ==>
      StartsWith(name + AddonText(addons), name + " (Adicionais: " + addons.value[0].name)
      && EndsWith(name + AddonText(addons), ")")
  {
    if addons.Some? && addons.value != [] {
      var names := AddonNames(addons.value);
      var joined := JoinWith(names, ", ");
      assert StartsWith(joined, names[0]) by {
        if |names| > 1 {
          assert joined == names[0] + (", " + JoinWith(names[1..], ", "));
        }
      }
      var head := name + " (Adicionais: ";
      var full := name + AddonText(addons);
      assert full == head + joined + ")";
      assert full[..|head + names[0]|] == head + joined[..|names[0]|];
    }
  }

  datatype OrderRow = OrderRow(
    userId: string,
    customerName: string,
    customerPhone: string,
    customerAddress: string,
    isDelivery: bool,
    paymentMethod: string,
    subtotal: real,
    deliveryFee: real,
    total: real,
    status: string,
    paymentStatus: string,
    orderNumber: int,
    notes: string)

  datatype ItemRow = ItemRow(
    orderId: string,
    productId: string,
    productName: string,
    quantity: real,
    unitPrice: real,
    total: real,
    notes: Option<string>)

  function OrderRowFor(o: Order, orderNumber: int): OrderRow
  {
    OrderRow(o.userId, o.customerName, o.customerPhone, CustomerAddress(o), o.deliveryMode == "delivery",
             PaymentColumn(o.paymentMethod), o.subtotal, o.deliveryFee, o.total, "pending", "pending",
             orderNumber, OrderNotes(o))
  }

  function ItemRowFor(orderId: string, item: OrderItem): ItemRow
  {
    ItemRow(orderId, item.productId, item.name + AddonText(item.addons), item.quantity, item.price,
            ItemTotal(item), item.notes)
  }

  /** `order.items.map(...)`. */
  function ItemRows(orderId: string, items: seq<OrderItem>): (r: seq<ItemRow>)
    ensures |r| == |items|
    ensures forall k :: 0 <= k < |r| ==> r[k] == ItemRowFor(orderId, items[k])
  {
    seq(|items|, k requires 0 <= k < |items| => ItemRowFor(orderId, items[k]))
  }

  // ---------------------------------------------------------------------------
  // createOrder
  // ---------------------------------------------------------------------------

  datatype CreateResult =
    | ValidationError
    | SaveFailed(order: OrderRow)
    | ItemsFailed(order: OrderRow, items: seq<ItemRow>)
    | Success(order: OrderRow, items: seq<ItemRow>, orderId: string, orderNumber: int)

  /**
   * `createOrder`. `lastOrderNumber` is the seller's highest order number;
   * `insertedId` is the id the order insert returns, `None` when it fails;
   * `itemsOk` says whether the item insert succeeds.
   */
  function CreateOrder(raw: Order, lastOrderNumber: Option<int>, insertedId: Option<string>, itemsOk: bool): (r: CreateResult)
    ensures r.Success? ==> ValidOrder(raw) && itemsOk && |r.items| == |raw.items| && r.order.status == "pending"
    ensures r.Success? ==> r.orderNumber == r.order.orderNumber && forall k :: 0 <= k < |r.items| ==> r.items[k].orderId == r.orderId
  {
    if !ValidOrder(raw) then ValidationError
    else
      var n := NewOrder.NextOrderNumber(lastOrderNumber);
      var row := OrderRowFor(raw, n);
      if insertedId.None? then SaveFailed(row)
      else
        var items := ItemRows(insertedId.value, raw.items);
        if !itemsOk then ItemsFailed(row, items) else Success(row, items, insertedId.value, n)
  }

  /**
   * An invalid payload is refused before anything is written, whatever the
   * database would do; a valid one always reaches the order insert.
   */
  lemma ValidationComesFirst(raw: Order, lastOrderNumber: Option<int>, insertedId: Option<string>, itemsOk: bool)
    ensures CreateOrder(raw, lastOrderNumber, insertedId, itemsOk) == ValidationError <==> !ValidOrder(raw)
  {
  }

  /**
   * A successful order is numbered one past the seller's last (1 for the
   * first), is pending, and has one item row per item, attached to the new
   * order, each with its addons' prices in its total.
   */
  lemma CreatedOrder(raw: Order, lastOrderNumber: Option<int>, insertedId: Option<string>, itemsOk: bool)
    ensures var r := CreateOrder(raw, lastOrderNumber, insertedId, itemsOk);
      r.Success? ==>
        ValidOrder(raw) && insertedId == Some(r.orderId) && itemsOk
        && r.order.orderNumber == r.orderNumber
        && (lastOrderNumber.None? || lastOrderNumber.value == 0 ==> r.orderNumber == 1)
        && (lastOrderNumber.Some? && lastOrderNumber.value != 0 ==> r.orderNumber == lastOrderNumber.value + 1)
        && r.order.status == "pending" && r.order.paymentStatus == "pending"
        && |r.items| == |raw.items|
        && forall k :: 0 <= k < |r.items| ==>
             r.items[k].orderId == r.orderId && r.items[k].productId == raw.items[k].productId
             && r.items[k].total == (raw.items[k].price + AddonsPrice(raw.items[k].addons)) * raw.items[k].quantity
             && r.items[k].total >= 0.0
  {
    var r := CreateOrder(raw, lastOrderNumber, insertedId, itemsOk);
    if r.Success? {
      forall k | 0 <= k < |raw.items| ensures ItemTotal(raw.items[k]) >= 0.0 {
        ItemTotalBounds(raw.items[k]);
      }
    }
  }
}
