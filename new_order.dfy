/**
 * The new-order page: a cart of product lines, the running subtotal and
 * total, and the order written when the form is submitted.
 *
 * Prices and fees are exact `real`s. The database reads and writes of the
 * submit handler enter as their results: the last order number found and
 * whether each of the two inserts succeeded.
 */
module NewOrder {
  import opened Wrappers

  datatype Product = Product(id: string, name: string, price: real, categoryId: string)

  datatype CartItem = CartItem(product: Product, quantity: int, notes: string)

  // --------------------------------------------------------------- products

  /** `filteredProducts`: the products of the chosen category, or all of them when none is chosen. */
  function FilteredProducts(products: seq<Product>, selectedCategory: Option<string>): (r: seq<Product>)
    ensures |r| <= |products|
    ensures forall p :: p in r <==> p in products && (selectedCategory.None? || p.categoryId == selectedCategory.value)
  {
    if products == [] then []
    else
      var rest := FilteredProducts(products[1..], selectedCategory);
      assert forall p :: p in products <==> p == products[0] || p in products[1..];
      if selectedCategory.None? || products[0].categoryId == selectedCategory.value then [products[0]] + rest else rest
  }
  /** Filtering works piece by piece: the products kept keep their catalogue order. */
  lemma {:induction false} FilteredProductsConcat(a: seq<Product>, b: seq<Product>, selectedCategory: Option<string>)
    ensures FilteredProducts(a + b, selectedCategory) == FilteredProducts(a, selectedCategory) + FilteredProducts(b, selectedCategory)
    decreases |a|
  {
    if a == [] {
      assert a + b == b;
    } else {
      assert (a + b)[0] == a[0];
      assert (a + b)[1..] == a[1..] + b;
      FilteredProductsConcat(a[1..], b, selectedCategory);
    }
  }


  // ------------------------------------------------------------- cart lines

  /** At most one line per product. */
  predicate UniqueIds(cart: seq<CartItem>)
  {
    forall i, j :: 0 <= i < j < |cart| ==> cart[i].product.id != cart[j].product.id
  }

  /** Every line holds at least one unit. */
  predicate Positive(cart: seq<CartItem>)
  {
    forall i :: 0 <= i < |cart| ==> cart[i].quantity >= 1
  }

  /** The invariant every cart update keeps. */
  predicate ValidCart(cart: seq<CartItem>)
  {
    UniqueIds(cart) && Positive(cart)
  }

  predicate HasLine(cart: seq<CartItem>, id: string)
  {
    exists i :: 0 <= i < |cart| && cart[i].product.id == id
  }

  /** The units of a product over all its lines. */
  function QuantityOf(cart: seq<CartItem>, id: string): int
  {
    if cart == [] then 0
    else (if cart[0].product.id == id then cart[0].quantity else 0) + QuantityOf(cart[1..], id)
  }

  /** The unit prices of a product's lines, added up. */
  function PricesOf(cart: seq<CartItem>, id: string): real
  {
    if cart == [] then 0.0
    else (if cart[0].product.id == id then cart[0].product.price else 0.0) + PricesOf(cart[1..], id)
  }

  /** What a product's lines add to the subtotal. */
  function LineTotalOf(cart: seq<CartItem>, id: string): real
  {
    if cart == [] then 0.0
    else (if cart[0].product.id == id then Amount(cart[0]) else 0.0) + LineTotalOf(cart[1..], id)
  }

  function Amount(item: CartItem): real
  {
    item.product.price * item.quantity as real
  }

  /** `subtotal`: the sum of price times quantity over the lines. */
  function Subtotal(cart: seq<CartItem>): real
  {
    if cart == [] then 0.0 else Amount(cart[0]) + Subtotal(cart[1..])
  }

  /** `total`: the delivery fee is charged only for a delivery. */
  function Total(subtotal: real, isDelivery: bool, deliveryFee: real): (t: real)
    ensures isDelivery ==> t == subtotal + deliveryFee
    ensures !isDelivery ==> t == subtotal
  {
    subtotal + (if isDelivery then deliveryFee else 0.0)
  }

  // ----------------------------------------------------------------- updates

  /** The `map` of `addToCart`: one more unit on every line of the product. */
  function Increment(cart: seq<CartItem>, id: string): (r: seq<CartItem>)
    ensures |r| == |cart|
    ensures forall i :: 0 <= i < |r| ==> r[i].product == cart[i].product && r[i].notes == cart[i].notes
    ensures forall i :: 0 <= i < |r| ==> r[i].quantity >= cart[i].quantity
  {
    if cart == [] then []
    else
      var head := if cart[0].product.id == id then cart[0].(quantity := cart[0].quantity + 1) else cart[0];
      [head] + Increment(cart[1..], id)
  }

  /** `addToCart`: one more unit on the product's line, or a new line of one unit without notes. */
  function AddToCart(cart: seq<CartItem>, product: Product): (r: seq<CartItem>)
    ensures HasLine(r, product.id)
    ensures |cart| <= |r| <= |cart| + 1
    ensures forall i :: 0 <= i < |cart| ==> r[i].product == cart[i].product && r[i].notes == cart[i].notes
  {
    if HasLine(cart, product.id) then
      IncrementKeepsLine(cart, product.id);
      Increment(cart, product.id)
    else
      var r := cart + [CartItem(product, 1, "")];
      assert r[|cart|].product.id == product.id;
      r
  }

  /** Incrementing keeps every line's product, so the product keeps its line. */
  lemma IncrementKeepsLine(cart: seq<CartItem>, id: string)
    requires HasLine(cart, id)
    ensures HasLine(Increment(cart, id), id)
  {
    var i :| 0 <= i < |cart| && cart[i].product.id == id;
    assert Increment(cart, id)[i].product.id == id;
  }

  /** `updateQuantity`: the product's line moves by `delta` and goes once it reaches zero. */
  function UpdateQuantity(cart: seq<CartItem>, id: string, delta: int): (r: seq<CartItem>)
    ensures |r| <= |cart|
    ensures delta >= 0 && Positive(cart) ==> |r| == |cart|
  {
    if cart == [] then []
    else
      var rest := UpdateQuantity(cart[1..], id, delta);
      if cart[0].product.id != id then [cart[0]] + rest
      else if cart[0].quantity + delta <= 0 then rest
      else [cart[0].(quantity := cart[0].quantity + delta)] + rest
  }
  /** The update works line by line: the other lines keep their order and their contents. */
  lemma {:induction false} UpdateQuantityConcat(a: seq<CartItem>, b: seq<CartItem>, id: string, delta: int)
    ensures UpdateQuantity(a + b, id, delta) == UpdateQuantity(a, id, delta) + UpdateQuantity(b, id, delta)
    decreases |a|
  {
    if a == [] {
      assert a + b == b;
    } else {
      assert (a + b)[0] == a[0];
      assert (a + b)[1..] == a[1..] + b;
      UpdateQuantityConcat(a[1..], b, id, delta);
    }
  }

  /** What the update does to a single line: another product's line is kept as it is. */
  lemma UpdateQuantityLine(x: CartItem, id: string, delta: int)
    ensures UpdateQuantity([x], id, delta) ==
      if x.product.id != id then [x]
      else if x.quantity + delta <= 0 then []
      else [x.(quantity := x.quantity + delta)]
  {
    assert [x][1..] == [];
  }


  /** `removeFromCart`. */
  function RemoveFromCart(cart: seq<CartItem>, id: string): (r: seq<CartItem>)
    ensures |r| <= |cart|
    ensures forall x :: x in r <==> x in cart && x.product.id != id
  {
    if cart == [] then []
    else
      var rest := RemoveFromCart(cart[1..], id);
      if cart[0].product.id == id then rest else [cart[0]] + rest
  }
  /** Removal works piece by piece: the other lines keep their order and their contents. */
  lemma {:induction false} RemoveFromCartConcat(a: seq<CartItem>, b: seq<CartItem>, id: string)
    ensures RemoveFromCart(a + b, id) == RemoveFromCart(a, id) + RemoveFromCart(b, id)
    decreases |a|
  {
    if a == [] {
      assert a + b == b;
    } else {
      assert (a + b)[0] == a[0];
      assert (a + b)[1..] == a[1..] + b;
      RemoveFromCartConcat(a[1..], b, id);
    }
  }


  /** `updateItemNotes`. */
  function UpdateItemNotes(cart: seq<CartItem>, id: string, notes: string): (r: seq<CartItem>)
    ensures |r| == |cart|
    ensures forall i :: 0 <= i < |r| ==> r[i].product == cart[i].product && r[i].quantity == cart[i].quantity
    ensures forall i :: 0 <= i < |r| ==> r[i].notes == if cart[i].product.id == id then notes else cart[i].notes
  {
    if cart == [] then []
    else
      var head := if cart[0].product.id == id then cart[0].(notes := notes) else cart[0];
      [head] + UpdateItemNotes(cart[1..], id, notes)
  }

  // ---------------------------------------------------- quantities and money

  /** The products that have a line. */
  function IdSet(cart: seq<CartItem>): set<string>
  {
    if cart == [] then {} else {cart[0].product.id} + IdSet(cart[1..])
  }

  lemma {:induction false} IdSetHasLine(cart: seq<CartItem>, id: string)
    ensures id in IdSet(cart) <==> HasLine(cart, id)
  {
    if cart != [] {
      IdSetHasLine(cart[1..], id);
      if HasLine(cart[1..], id) {
        var k :| 0 <= k < |cart[1..]| && cart[1..][k].product.id == id;
        assert cart[k + 1] == cart[1..][k];
      }
      if HasLine(cart, id) && cart[0].product.id != id {
        var k :| 0 <= k < |cart| && cart[k].product.id == id;
        assert cart[1..][k - 1] == cart[k];
      }
    }
  }

  /** A line in front of others keeps one line per product exactly when its product is not among them. */
  lemma ConsUnique(x: CartItem, rest: seq<CartItem>)
    ensures UniqueIds([x] + rest) <==> UniqueIds(rest) && x.product.id !in IdSet(rest)
  {
    var c := [x] + rest;
    IdSetHasLine(rest, x.product.id);
    if UniqueIds(c) {
      forall i, j | 0 <= i < j < |rest| ensures rest[i].product.id != rest[j].product.id {
        assert c[i + 1] == rest[i] && c[j + 1] == rest[j];
      }
      forall k | 0 <= k < |rest| ensures rest[k].product.id != x.product.id {
        assert c[0] == x && c[k + 1] == rest[k];
      }
    }
    if UniqueIds(rest) && x.product.id !in IdSet(rest) {
      forall i, j | 0 <= i < j < |c| ensures c[i].product.id != c[j].product.id {
        assert c[j] == rest[j - 1];
        if i > 0 {
          assert c[i] == rest[i - 1];
        }
      }
    }
  }

  lemma ConsPositive(x: CartItem, rest: seq<CartItem>)
    ensures Positive([x] + rest) <==> x.quantity >= 1 && Positive(rest)
  {
    var c := [x] + rest;
    assert c[0] == x;
    assert forall k :: 0 <= k < |rest| ==> c[k + 1] == rest[k];
  }

  /** A cart with no line of the product holds none of it. */
  lemma {:induction false} NoLineNoQuantity(cart: seq<CartItem>, id: string)
    requires id !in IdSet(cart)
    ensures QuantityOf(cart, id) == 0 && LineTotalOf(cart, id) == 0.0
    ensures Count(cart, id) == 0 && PricesOf(cart, id) == 0.0
  {
    if cart != [] {
      NoLineNoQuantity(cart[1..], id);
    }
  }

  lemma {:induction false} IncrementEffect(cart: seq<CartItem>, id: string, other: string)
    ensures QuantityOf(Increment(cart, id), id) == QuantityOf(cart, id) + Count(cart, id)
    ensures other != id ==> QuantityOf(Increment(cart, id), other) == QuantityOf(cart, other)
    ensures Subtotal(Increment(cart, id)) == Subtotal(cart) + PricesOf(cart, id)
  {
    if cart != [] {
      IncrementEffect(cart[1..], id, other);
      var r := Increment(cart, id);
      assert r[1..] == Increment(cart[1..], id);
    }
  }

  /** The number of lines of a product. */
  function Count(cart: seq<CartItem>, id: string): nat
  {
    if cart == [] then 0 else (if cart[0].product.id == id then 1 else 0) + Count(cart[1..], id)
  }

  lemma {:induction false} CountUnique(cart: seq<CartItem>, id: string)
    requires UniqueIds(cart) && HasLine(cart, id)
    ensures Count(cart, id) == 1
  {
    assert cart == [cart[0]] + cart[1..];
    ConsUnique(cart[0], cart[1..]);
    if cart[0].product.id == id {
      NoLineNoQuantity(cart[1..], id);
    } else {
      IdSetHasLine(cart, id);
      IdSetHasLine(cart[1..], id);
      CountUnique(cart[1..], id);
    }
  }

  /**
   * Adding a product puts one more unit of it in the cart and no other, and
   * raises the subtotal by its price: the price of the line already there,
   * or the product's own for a new line.
   */
  lemma AddToCartEffect(cart: seq<CartItem>, product: Product, other: string)
    requires UniqueIds(cart)
    ensures QuantityOf(AddToCart(cart, product), product.id) == QuantityOf(cart, product.id) + 1
    ensures other != product.id ==> QuantityOf(AddToCart(cart, product), other) == QuantityOf(cart, other)
    ensures HasLine(cart, product.id) ==> Subtotal(AddToCart(cart, product)) == Subtotal(cart) + PricesOf(cart, product.id)
    ensures !HasLine(cart, product.id) ==> Subtotal(AddToCart(cart, product)) == Subtotal(cart) + product.price
  {
    if HasLine(cart, product.id) {
      IncrementEffect(cart, product.id, other);
      CountUnique(cart, product.id);
    } else {
      AppendLine(cart, CartItem(product, 1, ""), product.id);
      AppendLine(cart, CartItem(product, 1, ""), other);
    }
  }

  lemma {:induction false} AppendLine(cart: seq<CartItem>, item: CartItem, id: string)
    ensures QuantityOf(cart + [item], id) == QuantityOf(cart, id) + (if item.product.id == id then item.quantity else 0)
    ensures Subtotal(cart + [item]) == Subtotal(cart) + Amount(item)
  {
    if cart == [] {
      assert cart + [item] == [item];
    } else {
      assert (cart + [item])[1..] == cart[1..] + [item];
      AppendLine(cart[1..], item, id);
    }
  }

  /** Adding keeps one line per product and every line positive. */
  lemma AddToCartKeepsValid(cart: seq<CartItem>, product: Product)
    requires ValidCart(cart)
    ensures ValidCart(AddToCart(cart, product))
  {
    if !HasLine(cart, product.id) {
      var r := cart + [CartItem(product, 1, "")];
      forall i, j | 0 <= i < j < |r| ensures r[i].product.id != r[j].product.id {
        assert r[i] == cart[i];
        if j < |cart| {
          assert r[j] == cart[j];
        }
      }
      forall i | 0 <= i < |r| ensures r[i].quantity >= 1 {
        if i < |cart| {
          assert r[i] == cart[i];
        }
      }
    }
  }

  /**
   * `updateQuantity` moves the product's units by `delta`, or takes them all
   * away once there would be none left, and leaves every other product alone.
   */
  lemma {:induction false} UpdateQuantityEffect(cart: seq<CartItem>, id: string, delta: int, other: string)
    requires UniqueIds(cart)
    ensures other != id ==> QuantityOf(UpdateQuantity(cart, id, delta), other) == QuantityOf(cart, other)
    ensures HasLine(cart, id) ==>
      (QuantityOf(UpdateQuantity(cart, id, delta), id) ==
       if QuantityOf(cart, id) + delta <= 0 then 0 else QuantityOf(cart, id) + delta)
    ensures !HasLine(cart, id) ==> UpdateQuantity(cart, id, delta) == cart
  {
    IdSetHasLine(cart, id);
    if cart != [] {
      var tail := cart[1..];
      assert cart == [cart[0]] + tail;
      ConsUnique(cart[0], tail);
      IdSetHasLine(tail, id);
      UpdateQuantityEffect(tail, id, delta, other);
      if cart[0].product.id == id {
        NoLineNoQuantity(tail, id);
      }
    }
  }

  /** Removing a product takes all of it out, no more, and its lines' amount off the subtotal. */
  lemma {:induction false} RemoveFromCartEffect(cart: seq<CartItem>, id: string, other: string)
    ensures QuantityOf(RemoveFromCart(cart, id), id) == 0
    ensures other != id ==> QuantityOf(RemoveFromCart(cart, id), other) == QuantityOf(cart, other)
    ensures Subtotal(RemoveFromCart(cart, id)) == Subtotal(cart) - LineTotalOf(cart, id)
  {
    if cart != [] {
      RemoveFromCartEffect(cart[1..], id, other);
    }
  }

  /** Notes change nothing the order is charged for. */
  lemma {:induction false} NotesChangeNoAmount(cart: seq<CartItem>, id: string, notes: string, other: string)
    ensures QuantityOf(UpdateItemNotes(cart, id, notes), other) == QuantityOf(cart, other)
    ensures Subtotal(UpdateItemNotes(cart, id, notes)) == Subtotal(cart)
  {
    if cart != [] {
      NotesChangeNoAmount(cart[1..], id, notes, other);
      assert UpdateItemNotes(cart, id, notes)[1..] == UpdateItemNotes(cart[1..], id, notes);
    }
  }

  /** The filters keep no product the cart did not have. */
  lemma {:induction false} FiltersKeepIds(cart: seq<CartItem>, id: string, delta: int)
    ensures IdSet(UpdateQuantity(cart, id, delta)) <= IdSet(cart)
    ensures IdSet(RemoveFromCart(cart, id)) <= IdSet(cart)
  {
    if cart != [] {
      FiltersKeepIds(cart[1..], id, delta);
      var x := cart[0];
      var rest := UpdateQuantity(cart[1..], id, delta);
      assert ([x] + rest)[1..] == rest && ([x.(quantity := x.quantity + delta)] + rest)[1..] == rest;
      var qrest := RemoveFromCart(cart[1..], id);
      assert ([x] + qrest)[1..] == qrest;
    }
  }

  /** `updateQuantity` keeps one line per product and every line positive. */
  lemma {:induction false} UpdateQuantityKeepsValid(cart: seq<CartItem>, id: string, delta: int)
    requires ValidCart(cart)
    ensures ValidCart(UpdateQuantity(cart, id, delta))
  {
    if cart != [] {
      var x := cart[0];
      var tail := cart[1..];
      assert cart == [x] + tail;
      ConsUnique(x, tail);
      ConsPositive(x, tail);
      UpdateQuantityKeepsValid(tail, id, delta);
      FiltersKeepIds(tail, id, delta);
      var rest := UpdateQuantity(tail, id, delta);
      UpdateQuantityStep(cart, id, delta);
      if x.product.id != id {
        ConsUnique(x, rest);
        ConsPositive(x, rest);
        assert UpdateQuantity(cart, id, delta) == [x] + rest;
        assert ValidCart([x] + rest);
      } else if x.quantity + delta > 0 {
        var y := x.(quantity := x.quantity + delta);
        ConsUnique(y, rest);
        ConsPositive(y, rest);
        assert UpdateQuantity(cart, id, delta) == [y] + rest;
        assert ValidCart([y] + rest);
      } else {
        assert UpdateQuantity(cart, id, delta) == rest;
      }
    } else {
      assert UpdateQuantity(cart, id, delta) == [];
    }
  }

  /** One step of `updateQuantity`: the head line is kept, moved or dropped, and the rest follows. */
  lemma UpdateQuantityStep(cart: seq<CartItem>, id: string, delta: int)
    requires cart != []
    ensures var rest := UpdateQuantity(cart[1..], id, delta);
      UpdateQuantity(cart, id, delta) ==
        if cart[0].product.id != id then [cart[0]] + rest
        else if cart[0].quantity + delta <= 0 then rest
        else [cart[0].(quantity := cart[0].quantity + delta)] + rest
  {
  }

  /** `removeFromCart` keeps one line per product and every line positive. */
  lemma {:induction false} RemoveFromCartKeepsValid(cart: seq<CartItem>, id: string)
    requires ValidCart(cart)
    ensures ValidCart(RemoveFromCart(cart, id))
  {
    if cart != [] {
      var x := cart[0];
      var tail := cart[1..];
      assert cart == [x] + tail;
      ConsUnique(x, tail);
      ConsPositive(x, tail);
      RemoveFromCartKeepsValid(tail, id);
      FiltersKeepIds(tail, id, 0);
      var qrest := RemoveFromCart(tail, id);
      ConsUnique(x, qrest);
      ConsPositive(x, qrest);
    }
  }

  /** Changing notes keeps one line per product and every line positive. */
  lemma NotesKeepValid(cart: seq<CartItem>, id: string, notes: string)
    requires ValidCart(cart)
    ensures ValidCart(UpdateItemNotes(cart, id, notes))
  {
    var n := UpdateItemNotes(cart, id, notes);
    forall i, j | 0 <= i < j < |n| ensures n[i].product.id != n[j].product.id {
      assert n[i].product == cart[i].product && n[j].product == cart[j].product;
    }
  }

  // ------------------------------------------------------------------ submit

  /** The form beside the cart. */
  datatype Form = Form(customerName: string, customerPhone: string, customerAddress: string, isDelivery: bool,
                       paymentMethod: string, isPaid: bool, notes: string, deliveryFee: real)

  /** The `orders` row written. */
  datatype OrderRow = OrderRow(orderNumber: int, customerName: string, customerPhone: Option<string>,
                               customerAddress: Option<string>, status: string, paymentMethod: string,
                               paymentStatus: string, subtotal: real, deliveryFee: real, total: real,
                               notes: Option<string>, isDelivery: bool)

  /** An `order_items` row written. */
  datatype ItemRow = ItemRow(productId: string, productName: string, quantity: int, unitPrice: real,
                             total: real, notes: Option<string>)

  /** How a submit ends. */
  datatype Outcome =
    | Ignored                  // the guard returned before anything was written
    | OrderFailed              // the order insert failed: nothing written, an alert
    | ItemsFailed(order: OrderRow) // the order row stays written, the items are refused: an alert
    | Created(order: OrderRow, items: seq<ItemRow>) // both written, then the orders list is opened

  /** `x || null` on a string. */
  function OrNull(s: string): (r: Option<string>)
    ensures r.None? <==> s == []
    ensures r.Some? ==> r.value == s
  {
    if s == [] then None else Some(s)
  }

  /** `(lastOrder?.order_number || 0) + 1`. */
  function NextOrderNumber(last: Option<int>): (n: int)
    ensures last.None? || last.value == 0 ==> n == 1
    ensures last.Some? && last.value != 0 ==> n == last.value + 1
  {
    (if last.Some? && last.value != 0 then last.value else 0) + 1
  }

  /** The items written: one per cart line, priced at the line's unit price. */
  function ItemRows(cart: seq<CartItem>): (r: seq<ItemRow>)
    ensures |r| == |cart|
    ensures forall i :: 0 <= i < |r| ==> (r[i].productId == cart[i].product.id && r[i].quantity == cart[i].quantity
      && r[i].unitPrice == cart[i].product.price && r[i].total == r[i].unitPrice * r[i].quantity as real
      && r[i].notes == OrNull(cart[i].notes) && r[i].productName == cart[i].product.name)
  {
    if cart == [] then []
    else
      var item := cart[0];
      [ItemRow(item.product.id, item.product.name, item.quantity, item.product.price,
               item.product.price * item.quantity as real, OrNull(item.notes))] + ItemRows(cart[1..])
  }

  function ItemsTotal(items: seq<ItemRow>): real
  {
    if items == [] then 0.0 else items[0].total + ItemsTotal(items[1..])
  }

  /** The item rows add up to the cart's subtotal. */
  lemma {:induction false} ItemsAddUp(cart: seq<CartItem>)
    ensures ItemsTotal(ItemRows(cart)) == Subtotal(cart)
  {
    if cart != [] {
      ItemsAddUp(cart[1..]);
      assert ItemRows(cart)[1..] == ItemRows(cart[1..]);
    }
  }

  /** The order row for the form and cart. */
  function OrderFor(form: Form, cart: seq<CartItem>, orderNumber: int): OrderRow
  {
    var subtotal := Subtotal(cart);
    OrderRow(orderNumber, form.customerName, OrNull(form.customerPhone),
             if form.isDelivery then Some(form.customerAddress) else None,
             "pending", form.paymentMethod, if form.isPaid then "paid" else "pending",
             subtotal, if form.isDelivery then form.deliveryFee else 0.0,
             Total(subtotal, form.isDelivery, form.deliveryFee), OrNull(form.notes), form.isDelivery)
  }

  /**
   * `handleSubmit`: nothing without an owner, a customer name and a line in
   * the cart; then the order under the next number, then its items.
   */
  function Submit(hasUser: bool, form: Form, cart: seq<CartItem>, lastOrderNumber: Option<int>,
                  orderInsertOk: bool, itemsInsertOk: bool): (o: Outcome)
    ensures o.Created? <==> hasUser && form.customerName != [] && cart != [] && orderInsertOk && itemsInsertOk
    ensures o.Created? ==> |o.items| == |cart|
    ensures o.Created? || o.ItemsFailed? ==> o.order.status == "pending" && o.order.customerName == form.customerName
  {
    if !hasUser || form.customerName == [] || cart == [] then Ignored
    else
      var order := OrderFor(form, cart, NextOrderNumber(lastOrderNumber));
      if !orderInsertOk then OrderFailed
      else if !itemsInsertOk then ItemsFailed(order)
      else Created(order, ItemRows(cart))
  }

  /** The guard: without an owner, a customer name or a cart line nothing is written. */
  lemma SubmitGuards(hasUser: bool, form: Form, cart: seq<CartItem>, lastOrderNumber: Option<int>,
                     orderInsertOk: bool, itemsInsertOk: bool)
    ensures Submit(hasUser, form, cart, lastOrderNumber, orderInsertOk, itemsInsertOk) != Ignored <==>
      hasUser && form.customerName != [] && cart != []
  {
  }

  /**
   * A created order is numbered after the last one, its items add up to its
   * subtotal, and its total is that plus the fee exactly when it is a delivery.
   */
  lemma CreatedOrderAddsUp(hasUser: bool, form: Form, cart: seq<CartItem>, lastOrderNumber: Option<int>)
    requires Submit(hasUser, form, cart, lastOrderNumber, true, true).Created?
    ensures var o := Submit(hasUser, form, cart, lastOrderNumber, true, true);
      o.order.orderNumber == NextOrderNumber(lastOrderNumber)
      && o.order.subtotal == ItemsTotal(o.items)
      && o.order.total == ItemsTotal(o.items) + o.order.deliveryFee
      && (o.order.deliveryFee != 0.0 ==> o.order.isDelivery)
      && |o.items| == |cart|
  {
    ItemsAddUp(cart);
  }
}
