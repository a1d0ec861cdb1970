/**
 * The order handlers: the controller's own `resolveSellerId`, `createOrder`
 * (line-item pricing, the subtotal and the initial order state), the guards
 * of `getOrderById`, and the three updates `updateOrderStatus`,
 * `updatePaymentStatus` and `addTracking`, each of which rewrites a fixed set
 * of fields of an owned order and puts one entry in front of its timeline.
 * The clock is the pair `now` (milliseconds, the row's `createdAt`) and
 * `nowIso` (its ISO-8601 text, the timeline timestamp).
 */
module Orders {
  import opened Js
  import opened Schema
  import opened SellerId

  const SellerAccountNotFound: string := "Seller account not found"
  const ProductsRequired: string := "Products are required"
  const InvalidOrderId: string := "Invalid order id"
  const SellerNotFound: string := "Seller not found for user"
  const OrderNotFound: string := "Order not found"
  const InvalidRequest: string := "Invalid request"
  const NotFoundOrUnauthorized: string := "Order not found or unauthorized"

  const Pending: string := "PENDING"
  const Unpaid: string := "UNPAID"
  const Shipped: string := "SHIPPED"
  const OrderPlaced: string := "Order placed"
  const PaymentPrefix: string := "PAYMENT_"
  const StatusNotePrefix: string := "Status updated to "
  const PaymentNotePrefix: string := "Payment status changed to "
  const TrackingNotePrefix: string := "Shipped. Tracking: "

  // -----------------------------------------------------------------------
  // resolveSellerId

  /** What `resolveSellerId` does: throw (no `req.user` to read the id from), or return a value. */
  datatype Resolution = Throws | Resolved(sellerId: Option<int>)

  /** `resolveSellerId(req)` with `req.user` as `user` and the user table as `users`. */
  function ResolveSellerId(user: Option<TokenUser>, users: map<nat, User>): (r: Resolution)
    // `req.user!.id` is read only when the token's sellerId is falsy, and then throws without a user
    ensures r.Throws? <==> user.None?
    // a truthy sellerId in the token is returned without a lookup
    ensures user.Some? && TruthyInt(user.value.sellerId) ==> r == Resolved(user.value.sellerId)
    // otherwise the stored sellerId of the token's user wins when there is one
    ensures user.Some? && !TruthyInt(user.value.sellerId) && StoredSellerId(users, user.value.id).Some? ==>
      r == Resolved(StoredSellerId(users, user.value.id))
    // and when there is none the token's own falsy value (absent, null or 0) comes back
    ensures user.Some? && !TruthyInt(user.value.sellerId) && StoredSellerId(users, user.value.id).None? ==>
      r == Resolved(user.value.sellerId)
  {
    if user.None? then Throws
    else
      var sellerId := user.value.sellerId;
      if TruthyInt(sellerId) then Resolved(sellerId)
      else
        match StoredSellerId(users, user.value.id)
        case Some(s) => Resolved(Some(s))
        case None => Resolved(sellerId)
  }

  /** The seller a handler acts for: the resolved value when it is truthy (`if (!sellerId)` rejects the rest). */
  function Acting(r: Resolution): (s: Option<int>)
    ensures s.Some? <==> r.Resolved? && TruthyInt(r.sellerId)
    ensures s.Some? ==> s == r.sellerId && s.value != 0
  {
    if r.Resolved? && TruthyInt(r.sellerId) then r.sellerId else None
  }

  // -----------------------------------------------------------------------
  // createOrder: pricing

  /** One element of the body's `products` array. */
  datatype ItemInput = ItemInput(productId: int, quantity: Option<int>)

  /** The body fields `createOrder` reads; `products` is `None` when it is not an array, `tax` when it is not a number. */
  datatype OrderInput = OrderInput(
    customerName: string,
    customerPhone: Option<string>,
    customerEmail: Option<string>,
    shippingAddress: Option<string>,
    paymentMethod: Option<string>,
    products: Option<seq<ItemInput>>,
    tax: Option<int>)

  /** The stored product with id `productId`, if there is one. */
  predicate Stocked(products: map<nat, Product>, productId: int) {
    0 <= productId && productId in products
  }

  /** The line item created for one input item: the price snapshot and the defaulted quantity. */
  function Line(products: map<nat, Product>, item: ItemInput): (l: LineItem)
    ensures l.productId == item.productId
    // `Number(p.quantity || 1)`: a missing or zero quantity becomes 1, any other is kept
    ensures item.quantity.None? || item.quantity == Some(0) ==> l.quantity == 1
    ensures TruthyInt(item.quantity) ==> l.quantity == item.quantity.value
    // the price of the product with that id, or 0 when there is none
    ensures Stocked(products, item.productId) ==> l.priceAtPurchase == products[item.productId].price
    ensures !Stocked(products, item.productId) ==> l.priceAtPurchase == 0
  {
    var price := if Stocked(products, item.productId) then products[item.productId].price else 0;
    var qty := if TruthyInt(item.quantity) then item.quantity.value else 1;
    LineItem(item.productId, qty, price)
  }

  /** The line items of an order: one per input item, in input order. */
  function Lines(products: map<nat, Product>, items: seq<ItemInput>): (r: seq<LineItem>)
    ensures |r| == |items|
    ensures forall i :: 0 <= i < |items| ==> r[i] == Line(products, items[i])
  {
    if items == [] then [] else Lines(products, items[..|items| - 1]) + [Line(products, items[|items| - 1])]
  }

  /** Σ priceAtPurchase × quantity. */
  function Subtotal(lines: seq<LineItem>): int {
    if lines == [] then 0
    else Subtotal(lines[..|lines| - 1]) + lines[|lines| - 1].priceAtPurchase * lines[|lines| - 1].quantity
  }

  /** The subtotal is additive: the sum does not depend on how the lines are split. */
  lemma {:induction false} SubtotalConcat(a: seq<LineItem>, b: seq<LineItem>)
    ensures Subtotal(a + b) == Subtotal(a) + Subtotal(b)
    decreases |b|
  {
    if b == [] {
      assert a + b == a;
    } else {
      var b' := b[..|b| - 1];
      assert (a + b)[..|a + b| - 1] == a + b';
      assert (a + b)[|a + b| - 1] == b[|b| - 1];
      SubtotalConcat(a, b');
    }
  }

  /** Non-negative prices and quantities give a non-negative subtotal. */
  lemma {:induction false} SubtotalNonNegative(lines: seq<LineItem>)
    requires forall i :: 0 <= i < |lines| ==> lines[i].priceAtPurchase >= 0 && lines[i].quantity >= 0
    ensures Subtotal(lines) >= 0
  {
    if lines != [] {
      var last := lines[|lines| - 1];
      SubtotalNonNegative(lines[..|lines| - 1]);
      assert last.priceAtPurchase * last.quantity >= 0;
    }
  }

  /** Items naming no stored product are priced at 0 and add nothing to the subtotal. */
  lemma {:induction false} UnknownProductsCostNothing(products: map<nat, Product>, items: seq<ItemInput>)
    requires forall i :: 0 <= i < |items| ==> !Stocked(products, items[i].productId)
    ensures Subtotal(Lines(products, items)) == 0
  {
    if items != [] {
      var r := Lines(products, items);
      UnknownProductsCostNothing(products, items[..|items| - 1]);
      assert r[..|r| - 1] == Lines(products, items[..|items| - 1]);
    }
  }

  /**
   * The `items.map` loop of `createOrder`: builds the line items and adds
   * each line's price × quantity to `subtotal`.
   */
  method PriceItems(products: map<nat, Product>, items: seq<ItemInput>) returns (lines: seq<LineItem>, subtotal: int)
    ensures lines == Lines(products, items)
    ensures subtotal == Subtotal(lines)
  {
    lines, subtotal := [], 0;
    var i := 0;
    while i < |items|
      invariant 0 <= i <= |items|
      invariant lines == Lines(products, items[..i])
      invariant subtotal == Subtotal(lines)
    {
      var p := items[i];
      var price := if Stocked(products, p.productId) then products[p.productId].price else 0;
      var qty := if TruthyInt(p.quantity) then p.quantity.value else 1;
      ghost var prev := lines;
      subtotal := subtotal + price * qty;
      lines := lines + [LineItem(p.productId, qty, price)];
      assert items[..i + 1][..i] == items[..i] && items[..i + 1][i] == p;
      assert lines[..|lines| - 1] == prev;
      i := i + 1;
    }
    assert items[..i] == items;
  }

  /** The order `createOrder` inserts for seller `sellerId` under id `id`. */
  function Placed(id: nat, sellerId: int, now: int, nowIso: string, body: OrderInput, products: map<nat, Product>,
                  items: seq<ItemInput>): (o: Order)
    ensures o.id == id && o.sellerId == sellerId && o.createdAt == now
    ensures o.lines == Lines(products, items) && o.subtotal == Subtotal(o.lines)
    // tax: the given number, or 0 when it is not a number; the total is subtotal + tax
    ensures o.tax == (if body.tax.Some? then body.tax.value else 0)
    ensures o.totalAmount == o.subtotal + o.tax
    // the initial state: PENDING, UNPAID, no tracking number, and one "Order placed" entry
    ensures o.status == Pending && o.paymentStatus == Unpaid && o.trackingNumber == None
    ensures o.timeline == Entries([TimelineEntry(Pending, nowIso, OrderPlaced)])
    // `paymentMethod || null`
    ensures o.paymentMethod == (if Truthy(body.paymentMethod) then body.paymentMethod else None)
    ensures o.customerName == body.customerName && o.customerPhone == body.customerPhone
    ensures o.customerEmail == body.customerEmail && o.shippingAddress == body.shippingAddress
  {
    var lines := Lines(products, items);
    var subtotal := Subtotal(lines);
    var tax := if body.tax.Some? then body.tax.value else 0;
    Order(id, sellerId, now, body.customerName, body.customerPhone, body.customerEmail, body.shippingAddress,
          subtotal, tax, subtotal + tax, Pending, Unpaid,
          if Truthy(body.paymentMethod) then body.paymentMethod else None,
          Entries([TimelineEntry(Pending, nowIso, OrderPlaced)]), None, lines)
  }

  lemma AddOrderKeepsConsistent(t: Tables, o: Order)
    requires Consistent(t) && o.id == t.nextOrderId
    ensures t.nextOrderId !in t.orders
    ensures Consistent(t.(orders := t.orders[t.nextOrderId := o], nextOrderId := t.nextOrderId + 1))
  {
  }

  /** `createOrder`: the guards, the pricing loop and the insert. */
  method CreateOrder(db: Database, user: Option<TokenUser>, body: OrderInput, now: int, nowIso: string)
    returns (reply: Reply<Order>)
    requires db.Valid()
    modifies db`orders, db`nextOrderId
    ensures db.Valid()
    ensures user.None? ==> reply == Threw && unchanged(db)
    ensures user.Some? && Acting(ResolveSellerId(user, db.users)).None? ==>
      reply == Fail(400, SellerAccountNotFound) && unchanged(db)
    ensures Acting(ResolveSellerId(user, db.users)).Some? && (body.products.None? || body.products.value == []) ==>
      reply == Fail(400, ProductsRequired) && unchanged(db)
    ensures Acting(ResolveSellerId(user, db.users)).Some? && body.products.Some? && body.products.value != [] ==>
      var o := Placed(old(db.nextOrderId), Acting(ResolveSellerId(user, db.users)).value, now, nowIso, body,
                      db.products, body.products.value);
      && reply == Ok(201, o)
      && old(db.nextOrderId) !in old(db.orders)
      && db.orders == old(db.orders)[old(db.nextOrderId) := o]
      && db.nextOrderId == old(db.nextOrderId) + 1
  {
    if user.None? {
      return Threw;
    }
    var sellerId := Acting(ResolveSellerId(user, db.users));
    if sellerId.None? {
      return Fail(400, SellerAccountNotFound);
    }
    if body.products.None? || body.products.value == [] {
      return Fail(400, ProductsRequired);
    }
    var order := InsertOrder(db, sellerId.value, body, body.products.value, now, nowIso);
    reply := Ok(201, order);
  }

  /** The second half of `createOrder`: price the items, then insert the order under the next id. */
  method InsertOrder(db: Database, sellerId: int, body: OrderInput, items: seq<ItemInput>, now: int, nowIso: string)
    returns (order: Order)
    requires db.Valid()
    modifies db`orders, db`nextOrderId
    ensures db.Valid()
    ensures order == Placed(old(db.nextOrderId), sellerId, now, nowIso, body, db.products, items)
    ensures old(db.nextOrderId) !in old(db.orders)
    ensures db.orders == old(db.orders)[old(db.nextOrderId) := order]
    ensures db.nextOrderId == old(db.nextOrderId) + 1
  {
    var lines, subtotal := PriceItems(db.products, items);
    var tax := if body.tax.Some? then body.tax.value else 0;
    var totalAmount := subtotal + tax;
    var initialTimeline := [TimelineEntry(Pending, nowIso, OrderPlaced)];
    order := Order(db.nextOrderId, sellerId, now, body.customerName, body.customerPhone, body.customerEmail,
                   body.shippingAddress, subtotal, tax, totalAmount, Pending, Unpaid,
                   if Truthy(body.paymentMethod) then body.paymentMethod else None,
                   Entries(initialTimeline), None, lines);
    ghost var before := db.Snapshot();
    AddOrderKeepsConsistent(before, order);
    db.orders, db.nextOrderId := db.orders[db.nextOrderId := order], db.nextOrderId + 1;
    assert db.Snapshot() == before.(orders := db.orders, nextOrderId := db.nextOrderId);
  }

  // -----------------------------------------------------------------------
  // Finding an order of the seller.

  /** `order.findFirst({ where: { id, sellerId } })`. */
  predicate Owns(orders: map<nat, Order>, id: int, sellerId: int) {
    0 <= id && id in orders && orders[id].sellerId == sellerId
  }

  /** `getOrderById`: id, then seller, then ownership. */
  function GetOrderById(orders: map<nat, Order>, users: map<nat, User>, user: Option<TokenUser>, idParam: string)
    : (r: Reply<Order>)
    ensures ParseInt(idParam).None? ==> r == Fail(400, InvalidOrderId)
    ensures ParseInt(idParam).Some? && user.None? ==> r == Threw
    ensures ParseInt(idParam).Some? && user.Some? && Acting(ResolveSellerId(user, users)).None? ==>
      r == Fail(400, SellerNotFound)
    // an order is returned exactly when it exists and belongs to the acting seller; another seller's order is not found
    ensures r.Ok? <==>
      ParseInt(idParam).Some? && Acting(ResolveSellerId(user, users)).Some? &&
      Owns(orders, ParseInt(idParam).value, Acting(ResolveSellerId(user, users)).value)
    ensures r.Ok? ==> r == Ok(200, orders[ParseInt(idParam).value])
    ensures ParseInt(idParam).Some? && Acting(ResolveSellerId(user, users)).Some? && !r.Ok? ==>
      r == Fail(404, OrderNotFound)
  {
    var id := ParseInt(idParam);
    if id.None? then Fail(400, InvalidOrderId)
    else
      match ResolveSellerId(user, users)
      case Throws => Threw
      case Resolved(sellerId) =>
        if !TruthyInt(sellerId) then Fail(400, SellerNotFound)
        else if !Owns(orders, id.value, sellerId.value) then Fail(404, OrderNotFound)
        else Ok(200, orders[id.value])
  }

  /** What the update handlers' common guards decide: an answer, or the id of the order to rewrite. */
  datatype Access = Denied(reply: Reply<Order>) | Granted(id: nat)

  /**
   * The guards shared by the three updates: id and the required body field,
   * then the seller, then ownership. `given` is whether the required field is
   * truthy.
   */
  function Locate(orders: map<nat, Order>, users: map<nat, User>, user: Option<TokenUser>, idParam: string, given: bool)
    : (r: Access)
    ensures ParseInt(idParam).None? || !given ==> r == Denied(Fail(400, InvalidRequest))
    ensures ParseInt(idParam).Some? && given && user.None? ==> r == Denied(Threw)
    ensures ParseInt(idParam).Some? && given && user.Some? && Acting(ResolveSellerId(user, users)).None? ==>
      r == Denied(Fail(400, SellerNotFound))
    // an order is granted exactly when it exists and belongs to the acting seller
    ensures r.Granted? <==>
      ParseInt(idParam).Some? && given && Acting(ResolveSellerId(user, users)).Some? &&
      Owns(orders, ParseInt(idParam).value, Acting(ResolveSellerId(user, users)).value)
    ensures r.Granted? ==> r.id == ParseInt(idParam).value && r.id in orders
    ensures ParseInt(idParam).Some? && given && Acting(ResolveSellerId(user, users)).Some? && !r.Granted? ==>
      r == Denied(Fail(404, NotFoundOrUnauthorized))
  {
    var id := ParseInt(idParam);
    if id.None? || !given then Denied(Fail(400, InvalidRequest))
    else
      match ResolveSellerId(user, users)
      case Throws => Denied(Threw)
      case Resolved(sellerId) =>
        if !TruthyInt(sellerId) then Denied(Fail(400, SellerNotFound))
        else if !Owns(orders, id.value, sellerId.value) then Denied(Fail(404, NotFoundOrUnauthorized))
        else Granted(id.value)
  }

  /** The two getters answer alike on the seller and ownership checks: an order is readable exactly when it is updatable. */
  lemma LookupsAgree(orders: map<nat, Order>, users: map<nat, User>, user: Option<TokenUser>, idParam: string)
    ensures GetOrderById(orders, users, user, idParam).Ok? <==> Locate(orders, users, user, idParam, true).Granted?
  {
  }

  // -----------------------------------------------------------------------
  // The timeline updates.

  /** `Array.isArray(existing.timeline) ? existing.timeline : []`. */
  function History(t: Timeline): (h: seq<TimelineEntry>)
    ensures t.Entries? ==> h == t.entries
    ensures t.NotAnArray? ==> h == []
  {
    if t.Entries? then t.entries else []
  }

  /** `[newEntry, ...existingTimeline]`: the timeline grows by exactly one entry, in front. */
  function Prepend(o: Order, e: TimelineEntry): (r: Order)
    ensures r.timeline.Entries? && |r.timeline.entries| == |History(o.timeline)| + 1
    ensures r.timeline.entries[0] == e && r.timeline.entries[1..] == History(o.timeline)
    ensures r.(timeline := o.timeline) == o
  {
    o.(timeline := Entries([e] + History(o.timeline)))
  }

  /** `updateOrderStatus`'s rewrite: only status and timeline change. */
  function WithStatus(o: Order, status: string, note: Option<string>, nowIso: string): (r: Order)
    ensures r.status == status
    ensures r.timeline == Prepend(o, TimelineEntry(status, nowIso, Coalesce(note, StatusNotePrefix + status))).timeline
    ensures r.(status := o.status, timeline := o.timeline) == o
  {
    Prepend(o, TimelineEntry(status, nowIso, Coalesce(note, StatusNotePrefix + status))).(status := status)
  }

  /** `updatePaymentStatus`'s rewrite: only paymentStatus, paymentMethod and timeline change; status is untouched. */
  function WithPayment(o: Order, status: string, payMethod: Option<string>, note: Option<string>, nowIso: string)
    : (r: Order)
    ensures r.paymentStatus == status
    // `method ?? existing.paymentMethod`
    ensures payMethod.Some? ==> r.paymentMethod == payMethod
    ensures payMethod.None? ==> r.paymentMethod == o.paymentMethod
    ensures r.timeline
         == Prepend(o, TimelineEntry(PaymentPrefix + status, nowIso, Coalesce(note, PaymentNotePrefix + status))).timeline
    ensures r.(paymentStatus := o.paymentStatus, paymentMethod := o.paymentMethod, timeline := o.timeline) == o
  {
    Prepend(o, TimelineEntry(PaymentPrefix + status, nowIso, Coalesce(note, PaymentNotePrefix + status)))
      .(paymentStatus := status, paymentMethod := if payMethod.Some? then payMethod else o.paymentMethod)
  }

  /** `addTracking`'s rewrite: only trackingNumber, status (to SHIPPED) and timeline change. */
  function WithTracking(o: Order, trackingNumber: string, note: Option<string>, nowIso: string): (r: Order)
    ensures r.trackingNumber == Some(trackingNumber) && r.status == Shipped
    ensures r.timeline
         == Prepend(o, TimelineEntry(Shipped, nowIso, Coalesce(note, TrackingNotePrefix + trackingNumber))).timeline
    ensures r.(trackingNumber := o.trackingNumber, status := o.status, timeline := o.timeline) == o
  {
    Prepend(o, TimelineEntry(Shipped, nowIso, Coalesce(note, TrackingNotePrefix + trackingNumber)))
      .(trackingNumber := Some(trackingNumber), status := Shipped)
  }

  /** A note that is given, even an empty one, is used as is (`??`, not `||`). */
  lemma EmptyNoteIsKept(o: Order, status: string, nowIso: string)
    ensures WithStatus(o, status, Some(""), nowIso).timeline.entries[0].note == ""
  {
  }

  /** A timeline column that holds no array is replaced by a one-entry array. */
  lemma NonArrayTimelineRestarts(o: Order, status: string, note: Option<string>, nowIso: string)
    requires o.timeline.NotAnArray?
    ensures |WithStatus(o, status, note, nowIso).timeline.entries| == 1
  {
  }

  /** Every update keeps the earlier entries, newest first: n updates leave the history as a suffix. */
  lemma UpdatesKeepHistory(o: Order, s1: string, s2: string, nowIso: string)
    ensures var o2 := WithStatus(WithStatus(o, s1, None, nowIso), s2, None, nowIso);
            && o2.timeline.entries[2..] == History(o.timeline)
            && o2.timeline.entries[0].status == s2 && o2.timeline.entries[1].status == s1
  {
    var o1 := WithStatus(o, s1, None, nowIso);
    var o2 := WithStatus(o1, s2, None, nowIso);
    assert o2.timeline.entries[1..] == o1.timeline.entries;
    assert o2.timeline.entries[2..] == o1.timeline.entries[1..];
  }

  lemma RewriteKeepsConsistent(t: Tables, k: nat, o: Order)
    requires Consistent(t) && k in t.orders && o.id == k
    ensures Consistent(t.(orders := t.orders[k := o]))
  {
  }

  /** `updateOrderStatus`. */
  method UpdateOrderStatus(db: Database, user: Option<TokenUser>, idParam: string, status: Option<string>,
                           note: Option<string>, nowIso: string) returns (reply: Reply<Order>)
    requires db.Valid()
    modifies db`orders
    ensures db.Valid()
    ensures var a := Locate(old(db.orders), db.users, user, idParam, Truthy(status));
      && (a.Denied? ==> reply == a.reply && db.orders == old(db.orders))
      && (a.Granted? ==>
            var o := WithStatus(old(db.orders)[a.id], status.value, note, nowIso);
            reply == Ok(200, o) && db.orders == old(db.orders)[a.id := o])
  {
    var id := ParseInt(idParam);
    if id.None? || !Truthy(status) {
      return Fail(400, InvalidRequest);
    }
    var resolved := ResolveSellerId(user, db.users);
    if resolved.Throws? {
      return Threw;
    }
    if !TruthyInt(resolved.sellerId) {
      return Fail(400, SellerNotFound);
    }
    if !Owns(db.orders, id.value, resolved.sellerId.value) {
      return Fail(404, NotFoundOrUnauthorized);
    }
    var existing := db.orders[id.value];
    var existingTimeline := if existing.timeline.Entries? then existing.timeline.entries else [];
    var newEntry := TimelineEntry(status.value, nowIso, if note.Some? then note.value else StatusNotePrefix + status.value);
    var updated := existing.(status := status.value, timeline := Entries([newEntry] + existingTimeline));
    ghost var before := db.Snapshot();
    RewriteKeepsConsistent(before, id.value, updated);
    db.orders := db.orders[id.value := updated];
    assert db.Snapshot() == before.(orders := db.orders);
    reply := Ok(200, updated);
  }

  /** `updatePaymentStatus`. */
  method UpdatePaymentStatus(db: Database, user: Option<TokenUser>, idParam: string, status: Option<string>,
                             payMethod: Option<string>, note: Option<string>, nowIso: string) returns (reply: Reply<Order>)
    requires db.Valid()
    modifies db`orders
    ensures db.Valid()
    ensures var a := Locate(old(db.orders), db.users, user, idParam, Truthy(status));
      && (a.Denied? ==> reply == a.reply && db.orders == old(db.orders))
      && (a.Granted? ==>
            var o := WithPayment(old(db.orders)[a.id], status.value, payMethod, note, nowIso);
            reply == Ok(200, o) && db.orders == old(db.orders)[a.id := o])
  {
    var id := ParseInt(idParam);
    if id.None? || !Truthy(status) {
      return Fail(400, InvalidRequest);
    }
    var resolved := ResolveSellerId(user, db.users);
    if resolved.Throws? {
      return Threw;
    }
    if !TruthyInt(resolved.sellerId) {
      return Fail(400, SellerNotFound);
    }
    if !Owns(db.orders, id.value, resolved.sellerId.value) {
      return Fail(404, NotFoundOrUnauthorized);
    }
    var existing := db.orders[id.value];
    var existingTimeline := if existing.timeline.Entries? then existing.timeline.entries else [];
    var newEntry := TimelineEntry(PaymentPrefix + status.value, nowIso,
                                  if note.Some? then note.value else PaymentNotePrefix + status.value);
    var updated := existing.(paymentStatus := status.value,
                             paymentMethod := if payMethod.Some? then payMethod else existing.paymentMethod,
                             timeline := Entries([newEntry] + existingTimeline));
    ghost var before := db.Snapshot();
    RewriteKeepsConsistent(before, id.value, updated);
    db.orders := db.orders[id.value := updated];
    assert db.Snapshot() == before.(orders := db.orders);
    reply := Ok(200, updated);
  }

  /** `addTracking`. */
  method AddTracking(db: Database, user: Option<TokenUser>, idParam: string, trackingNumber: Option<string>,
                     note: Option<string>, nowIso: string) returns (reply: Reply<Order>)
    requires db.Valid()
    modifies db`orders
    ensures db.Valid()
    ensures var a := Locate(old(db.orders), db.users, user, idParam, Truthy(trackingNumber));
      && (a.Denied? ==> reply == a.reply && db.orders == old(db.orders))
      && (a.Granted? ==>
            var o := WithTracking(old(db.orders)[a.id], trackingNumber.value, note, nowIso);
            reply == Ok(200, o) && db.orders == old(db.orders)[a.id := o])
  {
    var id := ParseInt(idParam);
    if id.None? || !Truthy(trackingNumber) {
      return Fail(400, InvalidRequest);
    }
    var resolved := ResolveSellerId(user, db.users);
    if resolved.Throws? {
      return Threw;
    }
    if !TruthyInt(resolved.sellerId) {
      return Fail(400, SellerNotFound);
    }
    if !Owns(db.orders, id.value, resolved.sellerId.value) {
      return Fail(404, NotFoundOrUnauthorized);
    }
    var existing := db.orders[id.value];
    var existingTimeline := if existing.timeline.Entries? then existing.timeline.entries else [];
    var newEntry := TimelineEntry(Shipped, nowIso,
                                  if note.Some? then note.value else TrackingNotePrefix + trackingNumber.value);
    var updated := existing.(trackingNumber := trackingNumber, status := Shipped,
                             timeline := Entries([newEntry] + existingTimeline));
    ghost var before := db.Snapshot();
    RewriteKeepsConsistent(before, id.value, updated);
    db.orders := db.orders[id.value := updated];
    assert db.Snapshot() == before.(orders := db.orders);
    reply := Ok(200, updated);
  }
}
