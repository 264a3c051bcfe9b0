/** The shop's stored state — catalog, orders and the notification log —
    and the routes that change it in place: create-order, verify-payment
    and cancel of routes/orders.js, the admin status update of
    routes/admin.js, and the item create, edit, delete and stock routes of
    routes/inventory.js. */
module Shop {

  import opened Common
  import Text
  import opened Catalog
  import opened OrderModel
  import opened Pricing
  import opened Stock

  /** Delivery estimates, in milliseconds after the update. */
  const ConfirmDelay: int := 30 * 60 * 1000
  const KitchenDelay: int := 20 * 60 * 1000
  const DeliveryDelay: int := 10 * 60 * 1000

  /** One element of the create-order body's `items`; the client's own
      `pizza` and `price` are never read. */
  datatype RequestedItem = RequestedItem(quantity: Option<int>, customizations: Customization)

  /** `Math.max(item.quantity || 1, 1)`. */
  function Quantity(q: Option<int>): (r: int)
    ensures r >= 1
    ensures q.Some? && q.value >= 1 ==> r == q.value
    ensures q.None? || q.value < 1 ==> r == 1
  {
    var given := if q.None? || q.value == 0 then 1 else q.value;
    if given > 1 then given else 1
  }

  /** The line's `pizza` link: the first present of base, sauce, cheese. */
  function Representative(c: Customization): (r: Option<ItemId>)
    ensures r.Some? <==> c.base.Some? || c.sauce.Some? || c.cheese.Some?
    ensures c.base.Some? ==> r == c.base
    ensures c.base.None? && c.sauce.Some? ==> r == c.sauce
    ensures c.base.None? && c.sauce.None? ==> r == c.cheese
  {
    if c.base.Some? then c.base else if c.sauce.Some? then c.sauce else c.cheese
  }

  /** A line as the pricing loop builds it, before the schema has checked
      that its `pizza` link is present. */
  datatype Draft = Draft(pizza: Option<ItemId>, quantity: int, customizations: Customization, price: int)

  function DraftTotal(ds: seq<Draft>): int
  {
    if ds == [] then 0 else DraftTotal(ds[..|ds| - 1]) + ds[|ds| - 1].price
  }

  function LinesTotal(ls: seq<LineItem>): int
  {
    if ls == [] then 0 else LinesTotal(ls[..|ls| - 1]) + ls[|ls| - 1].price
  }

  /** The lines as stored once every `pizza` link is present; the total is
      unchanged. */
  function Stored(ds: seq<Draft>): (r: seq<LineItem>)
    requires forall i :: 0 <= i < |ds| ==> ds[i].pizza.Some?
    ensures |r| == |ds|
    ensures forall i :: 0 <= i < |ds| ==>
              r[i] == LineItem(ds[i].pizza.value, ds[i].quantity, ds[i].customizations, ds[i].price)
    ensures LinesTotal(r) == DraftTotal(ds)
  {
    if ds == [] then []
    else
      var last := ds[|ds| - 1];
      var init := Stored(ds[..|ds| - 1]);
      var r := init + [LineItem(last.pizza.value, last.quantity, last.customizations, last.price)];
      assert r[..|r| - 1] == init;
      r
  }

  /** One draft per requested item, in order, with its representative
      link, its clamped quantity, its customizations as sent and its price
      from the catalog. */
  predicate Priced(lines: seq<Draft>, items: seq<RequestedItem>, docs: seq<Item>)
  {
    && |lines| == |items|
    && forall i :: 0 <= i < |items| ==>
         && lines[i].quantity == Quantity(items[i].quantity)
         && lines[i].customizations == items[i].customizations
         && lines[i].pizza == Representative(items[i].customizations)
         && lines[i].price == UnitPrice(docs, items[i].customizations) * lines[i].quantity
  }

  /** A draft lacks its link exactly when its item names no base, sauce or
      cheese. */
  lemma PricedLinks(lines: seq<Draft>, items: seq<RequestedItem>, docs: seq<Item>)
    requires Priced(lines, items, docs)
    ensures (forall i :: 0 <= i < |lines| ==> lines[i].pizza.Some?)
            <==> !(exists i :: 0 <= i < |items| && Representative(items[i].customizations).None?)
  {
  }

  /** Once every link is present, the stored lines are the ones create-order
      promises. */
  lemma PricedStored(lines: seq<Draft>, items: seq<RequestedItem>, docs: seq<Item>)
    requires Priced(lines, items, docs)
    requires forall i :: 0 <= i < |lines| ==> lines[i].pizza.Some?
    ensures LinesFor(Stored(lines), items, docs)
  {
  }

  /** The pricing loop of create-order: every line is priced from the
      catalog (unit price times the clamped quantity) and the order total
      is the sum of the line prices. */
  method PriceItems(docs: seq<Item>, items: seq<RequestedItem>) returns (lines: seq<Draft>, totalAmount: int)
    ensures Priced(lines, items, docs)
    ensures totalAmount == DraftTotal(lines)
  {
    lines := [];
    totalAmount := 0;
    var k := 0;
    while k < |items|
      invariant 0 <= k <= |items| && |lines| == k
      invariant Priced(lines, items[..k], docs)
      invariant totalAmount == DraftTotal(lines)
    {
      var quantity := Quantity(items[k].quantity);
      var custom := items[k].customizations;
      var unitPrice := UnitPriceOf(docs, custom);
      var itemPrice := unitPrice * quantity;
      totalAmount := totalAmount + itemPrice;
      var next := lines + [Draft(Representative(custom), quantity, custom, itemPrice)];
      assert next[..|next| - 1] == lines;
      PricedExtend(lines, items, docs, k);
      lines := next;
      k := k + 1;
    }
    assert items[..k] == items;
  }

  lemma PricedExtend(lines: seq<Draft>, items: seq<RequestedItem>, docs: seq<Item>, k: nat)
    requires k < |items| && Priced(lines, items[..k], docs)
    ensures
      var q := Quantity(items[k].quantity);
      var c := items[k].customizations;
      Priced(lines + [Draft(Representative(c), q, c, UnitPrice(docs, c) * q)], items[..k + 1], docs)
  {
  }

  /** The pricing loop followed by the schema's check that every line has
      its `pizza` link: no drafts when some item names no base, sauce or
      cheese. */
  method PriceAndCheck(docs: seq<Item>, items: seq<RequestedItem>) returns (drafts: Option<seq<Draft>>, totalAmount: int)
    ensures drafts.None? <==> exists i :: 0 <= i < |items| && Representative(items[i].customizations).None?
    ensures drafts.Some? ==>
              && (forall i :: 0 <= i < |drafts.value| ==> drafts.value[i].pizza.Some? && drafts.value[i].quantity >= 1)
              && totalAmount == DraftTotal(drafts.value)
              && LinesFor(Stored(drafts.value), items, docs)
  {
    var lines;
    lines, totalAmount := PriceItems(docs, items);
    PricedLinks(lines, items, docs);
    if !(forall i :: 0 <= i < |lines| ==> lines[i].pizza.Some?) {
      return None, totalAmount;
    }
    PricedStored(lines, items, docs);
    return Some(lines), totalAmount;
  }

  /** The stored lines of an order created from `items` against `docs`:
      one per requested item, in order, with its representative link, its
      clamped quantity, its customizations as sent and its price from the
      catalog. */
  predicate LinesFor(lines: seq<LineItem>, items: seq<RequestedItem>, docs: seq<Item>)
  {
    && |lines| == |items|
    && forall i :: 0 <= i < |items| ==>
         && Some(lines[i].pizza) == Representative(items[i].customizations)
         && lines[i].quantity == Quantity(items[i].quantity)
         && lines[i].customizations == items[i].customizations
         && lines[i].price == UnitPrice(docs, items[i].customizations) * lines[i].quantity
  }

  /** The address on the account, when the request gives none. */
  datatype SavedAddress = SavedAddress(street: string, city: string, state: string, zipCode: string)

  datatype Account = Account(address: Option<SavedAddress>, phone: string)

  /** The delivery address of a new order: the one sent, else the account's
      saved address with the account phone when it has a street, else none. */
  function FinalAddress(supplied: Option<Address>, account: Option<Account>): (r: Option<Address>)
    ensures supplied.Some? ==> r == supplied
    ensures supplied.None? ==>
              (r.Some? <==> account.Some? && account.value.address.Some? && account.value.address.value.street != "")
    ensures supplied.None? && r.Some? ==>
              var a := account.value.address.value;
              r.value == Address(a.street, a.city, a.state, a.zipCode, account.value.phone)
  {
    if supplied.Some? then supplied
    else if account.Some? && account.value.address.Some? && account.value.address.value.street != "" then
      var a := account.value.address.value;
      Some(Address(a.street, a.city, a.state, a.zipCode, account.value.phone))
    else None
  }

  /** A real-time `orderUpdate` notification to the order's owner. */
  datatype Event = Event(user: UserId, orderId: OrderId, status: Status, message: string)

  /** The payment-gateway order returned when payments are enabled. */
  datatype PaymentIntent = PaymentIntent(id: string, amount: int, currency: string, receipt: string)

  /** What verify-payment demands before it looks the order up: nothing in
      test mode, otherwise all three fields and a matching signature. */
  predicate SignatureAccepted(testMode: bool, orderId: Option<OrderId>, paymentId: Option<string>,
                              signature: Option<string>, expectedSignature: string)
  {
    testMode || (orderId.Some? && Truthy(paymentId) && Truthy(signature) && signature.value == expectedSignature)
  }

  /** The admin's status change: any of the six statuses from any current
      one; in_kitchen and out_for_delivery set a new delivery estimate. */
  function WithStatus(o: Order, s: Status, now: int): (r: Order)
    ensures r.status == s
    ensures s == InKitchen ==> r.estimatedDeliveryTime == Some(now + KitchenDelay)
    ensures s == OutForDelivery ==> r.estimatedDeliveryTime == Some(now + DeliveryDelay)
    ensures s != InKitchen && s != OutForDelivery ==> r.estimatedDeliveryTime == o.estimatedDeliveryTime
    ensures && r.user == o.user && r.orderNumber == o.orderNumber && r.items == o.items
            && r.totalAmount == o.totalAmount && r.paymentStatus == o.paymentStatus
            && r.paymentId == o.paymentId && r.deliveryAddress == o.deliveryAddress && r.notes == o.notes
  {
    var eta :=
      if s == InKitchen then Some(now + KitchenDelay)
      else if s == OutForDelivery then Some(now + DeliveryDelay)
      else o.estimatedDeliveryTime;
    o.(status := s, estimatedDeliveryTime := eta)
  }

  /** The fixed opening of a status-update notification. */
  const StatusPrefix: string := "Order status updated to: "

  /** The notification text of a status update, with the first underscore
      of the status name shown as a space. */
  function StatusMessage(status: string): (m: string)
    ensures |m| == |StatusPrefix| + |status|
    ensures m[..|StatusPrefix|] == StatusPrefix
    ensures m[|StatusPrefix|..] == Text.ReplaceFirst(status, '_', ' ')
  {
    StatusPrefix + Text.ReplaceFirst(status, '_', ' ')
  }

  /** A one-character `replace` reaches only the first underscore: the text
      after it keeps its own underscores, so `out_for_delivery` is shown as
      `out for_delivery`. */
  lemma StatusMessageReplacesFirst(a: string, b: string)
    requires '_' !in a
    ensures StatusMessage(a + "_" + b) == StatusPrefix + a + " " + b
  {
    Text.ReplaceFirstAt(a, b, '_', ' ');
  }

  /** The stored shape of an order the shop has placed as its k-th: valid
      for the schema, numbered by the hook from the count before it, and
      totalling its line prices. */
  predicate Placed(o: Order, k: nat)
  {
    SchemaValid(o) && o.orderNumber == OrderNumber(k) && o.totalAmount == LinesTotal(o.items)
  }

  /** Every order of the collection is the one the shop placed at its
      position. */
  predicate AllPlaced(orders: seq<Order>)
  {
    forall k :: 0 <= k < |orders| ==> Placed(orders[k], k)
  }

  /** A change that keeps an order's number, lines and total keeps the
      collection placed. */
  lemma UpdateKeepsPlaced(orders: seq<Order>, id: nat, o: Order)
    requires AllPlaced(orders) && id < |orders|
    requires o.orderNumber == orders[id].orderNumber && o.items == orders[id].items
    requires o.totalAmount == orders[id].totalAmount
    ensures AllPlaced(orders[id := o])
  {
    assert Placed(orders[id], id);
  }

  lemma AppendKeepsPlaced(orders: seq<Order>, o: Order)
    requires AllPlaced(orders) && Placed(o, |orders|)
    ensures AllPlaced(orders + [o])
  {
    forall k | 0 <= k < |orders| + 1
      ensures Placed((orders + [o])[k], k)
    {
      if k < |orders| {
        assert (orders + [o])[k] == orders[k];
      }
    }
  }

  /** No two placed orders share a number. */
  lemma {:induction false} PlacedNumbersDistinct(orders: seq<Order>, j: nat, k: nat)
    requires AllPlaced(orders)
    requires j < k < |orders|
    ensures orders[j].orderNumber != orders[k].orderNumber
  {
    OrderNumberInjective(j, k);
  }

  /** What an inventory create passes to the schema: `stock || 100` and
      `threshold || 20`, and no isAvailable. */
  function CreateFields(f: ItemFields): (r: ItemFields)
    ensures r.name == f.name && r.description == f.description && r.basePrice == f.basePrice
    ensures r.category == f.category && r.image == f.image && r.isAvailable.None?
    ensures f.stock.Some? && f.stock.value != 0 ==> r.stock == f.stock
    ensures f.stock.None? || f.stock.value == 0 ==> r.stock == Some(DefaultStock)
    ensures f.threshold.Some? && f.threshold.value != 0 ==> r.threshold == f.threshold
    ensures f.threshold.None? || f.threshold.value == 0 ==> r.threshold == Some(DefaultThreshold)
  {
    f.(stock := Some(if f.stock.None? || f.stock.value == 0 then DefaultStock else f.stock.value),
       threshold := Some(if f.threshold.None? || f.threshold.value == 0 then DefaultThreshold else f.threshold.value),
       isAvailable := None)
  }

  /** The partial update of an item: name, description, basePrice, category
      and image only when the new value is truthy; stock, threshold and
      isAvailable whenever present, zero and false included. A category
      outside the enum fails validation at save. */
  function Edited(x: Item, p: ItemFields): (r: Result<Item>)
    ensures r.Err? <==> Truthy(p.category) && ParseCategory(p.category.value).None?
    ensures r.Err? ==> r.failure == ServerError
    ensures r.Ok? ==> r.value.id == x.id
    ensures r.Ok? ==> r.value.name == (if Truthy(p.name) then p.name.value else x.name)
    ensures r.Ok? ==> r.value.description == (if Truthy(p.description) then p.description.value else x.description)
    ensures r.Ok? ==> r.value.basePrice == (if p.basePrice.Some? && p.basePrice.value != 0 then p.basePrice.value else x.basePrice)
    ensures r.Ok? ==> r.value.category == (if Truthy(p.category) then ParseCategory(p.category.value).value else x.category)
    ensures r.Ok? ==> r.value.image == (if Truthy(p.image) then p.image.value else x.image)
    ensures r.Ok? ==> r.value.stock == (if p.stock.Some? then p.stock.value else x.stock)
    ensures r.Ok? ==> r.value.threshold == (if p.threshold.Some? then p.threshold.value else x.threshold)
    ensures r.Ok? ==> r.value.isAvailable == (if p.isAvailable.Some? then p.isAvailable.value else x.isAvailable)
  {
    var category := if Truthy(p.category) then ParseCategory(p.category.value) else Some(x.category);
    if category.None? then Err(ServerError)
    else
      var name := if Truthy(p.name) then p.name.value else x.name;
      var description := if Truthy(p.description) then p.description.value else x.description;
      var basePrice := if p.basePrice.Some? && p.basePrice.value != 0 then p.basePrice.value else x.basePrice;
      var image := if Truthy(p.image) then p.image.value else x.image;
      var stock := if p.stock.Some? then p.stock.value else x.stock;
      var threshold := if p.threshold.Some? then p.threshold.value else x.threshold;
      var isAvailable := if p.isAvailable.Some? then p.isAvailable.value else x.isAvailable;
      Ok(Item(x.id, name, description, basePrice, image, category.value, isAvailable, stock, threshold))
  }

  /** An edit with no fields leaves the item as it was. */
  lemma EditedEmpty(x: Item)
    ensures Edited(x, ItemFields(None, None, None, None, None, None, None, None)) == Ok(x)
  {
  }

  /** Applying the same edit twice is the same as applying it once. */
  lemma EditedIdempotent(x: Item, p: ItemFields)
    requires Edited(x, p).Ok?
    ensures Edited(Edited(x, p).value, p) == Edited(x, p)
  {
  }

  /** Removing the document at k from a collection with unique ids removes
      exactly the documents with its id and keeps the ids unique. */
  lemma RemoveAtKeepsOthers(docs: seq<Item>, k: nat)
    requires UniqueIds(docs) && k < |docs|
    ensures UniqueIds(docs[..k] + docs[k + 1..])
    ensures forall x :: x in docs[..k] + docs[k + 1..] <==> x in docs && x.id != docs[k].id
  {
    var rest := docs[..k] + docs[k + 1..];
    assert forall j :: 0 <= j < |rest| ==> rest[j] == docs[if j < k then j else j + 1];
    forall x | x in docs && x.id != docs[k].id
      ensures x in rest
    {
      var j :| 0 <= j < |docs| && docs[j] == x;
      assert rest[if j < k then j else j - 1] == x;
    }
  }

  /** Every id in the collection is below `n`, the next id to be given. */
  predicate IdsBelow(docs: seq<Item>, n: nat)
  {
    forall i :: 0 <= i < |docs| ==> docs[i].id < n
  }

  lemma RemoveAtKeepsBelow(docs: seq<Item>, k: nat, n: nat)
    requires IdsBelow(docs, n) && k < |docs|
    ensures IdsBelow(docs[..k] + docs[k + 1..], n)
  {
    var rest := docs[..k] + docs[k + 1..];
    forall j | 0 <= j < |rest| ensures rest[j].id < n {
      assert rest[j] == docs[if j < k then j else j + 1];
    }
  }

  class Shop {
    /** The ingredient collection, in natural order. */
    var catalog: seq<Item>
    /** The order collection; an order's id is its position. */
    var orders: seq<Order>
    /** Notifications sent, oldest first. */
    var events: seq<Event>
    /** The id the next created item gets. */
    var nextItemId: ItemId
    /** PAYMENTS_DISABLED and RAZORPAY_TEST_MODE, read once at start-up. */
    const paymentsDisabled: bool
    const testMode: bool

    ghost predicate Valid()
      reads this
    {
      && UniqueIds(catalog)
      && IdsBelow(catalog, nextItemId)
      && AllPlaced(orders)
    }

    constructor (paymentsDisabled: bool, testMode: bool)
      ensures Valid()
      ensures catalog == [] && orders == [] && events == [] && nextItemId == 0
      ensures this.paymentsDisabled == paymentsDisabled && this.testMode == testMode
    {
      catalog := [];
      orders := [];
      events := [];
      nextItemId := 0;
      this.paymentsDisabled := paymentsDisabled;
      this.testMode := testMode;
    }

    /** `dec(id, qty)` of the auto-confirmation: a `$inc` of -qty on the
        document with that id, nothing when the id is absent. */
    method Dec(id: Option<ItemId>, qty: int)
      modifies this`catalog
      ensures |catalog| == |old(catalog)|
      ensures forall i :: 0 <= i < |catalog| ==>
                catalog[i] == old(catalog)[i].(stock := old(catalog)[i].stock - SlotUse(id, old(catalog)[i].id, qty))
    {
      if id.Some? {
        catalog := Inc(catalog, id.value, -qty);
      }
    }

    /** The decrement loop over one component array. */
    method DecEach(ids: seq<ItemId>, qty: int)
      modifies this`catalog
      ensures |catalog| == |old(catalog)|
      ensures forall i :: 0 <= i < |catalog| ==>
                catalog[i] == old(catalog)[i].(stock := old(catalog)[i].stock - WeightedCount(ids, old(catalog)[i].id, qty))
    {
      var j := 0;
      while j < |ids|
        invariant 0 <= j <= |ids| && |catalog| == |old(catalog)|
        invariant forall i :: 0 <= i < |catalog| ==>
                    catalog[i] == old(catalog)[i].(stock := old(catalog)[i].stock - WeightedCount(ids[..j], old(catalog)[i].id, qty))
      {
        Dec(Some(ids[j]), qty);
        assert ids[..j + 1][..j] == ids[..j];
        j := j + 1;
      }
      assert ids[..|ids|] == ids;
    }

    /** The decrements for one line: base, sauce, cheese, then every
        vegetable and meat occurrence, each by the line quantity. */
    method DecLine(l: LineItem)
      modifies this`catalog
      ensures |catalog| == |old(catalog)|
      ensures forall i :: 0 <= i < |catalog| ==>
                catalog[i] == old(catalog)[i].(stock := old(catalog)[i].stock - LineUse(l, old(catalog)[i].id))
    {
      var c := l.customizations;
      Dec(c.base, l.quantity);
      Dec(c.sauce, l.quantity);
      Dec(c.cheese, l.quantity);
      DecEach(c.veggies, l.quantity);
      DecEach(c.meat, l.quantity);
    }

    /** The stock update of the payments-disabled confirmation. */
    method ConsumeLines(lines: seq<LineItem>)
      modifies this`catalog
      ensures catalog == ConsumeComponents(old(catalog), lines)
    {
      var k := 0;
      while k < |lines|
        invariant 0 <= k <= |lines| && |catalog| == |old(catalog)|
        invariant forall i :: 0 <= i < |catalog| ==>
                    catalog[i] == old(catalog)[i].(stock := old(catalog)[i].stock - ComponentDemand(lines[..k], old(catalog)[i].id))
      {
        DecLine(lines[k]);
        assert lines[..k + 1][..k] == lines[..k];
        k := k + 1;
      }
      assert lines[..|lines|] == lines;
    }

    /** The stock loop of verify-payment (`up` false) and of cancel (`up`
        true): a `$inc` of the line quantity, negated when taking, on each
        line's representative link only. */
    method ShiftRepresentatives(lines: seq<LineItem>, up: bool)
      modifies this`catalog
      ensures !up ==> catalog == ConsumeRepresentatives(old(catalog), lines)
      ensures up ==> catalog == RestoreRepresentatives(old(catalog), lines)
    {
      var sign := if up then 1 else -1;
      var k := 0;
      while k < |lines|
        invariant 0 <= k <= |lines| && |catalog| == |old(catalog)|
        invariant forall i :: 0 <= i < |catalog| ==>
                    catalog[i] == old(catalog)[i].(stock := old(catalog)[i].stock + sign * PizzaDemand(lines[..k], old(catalog)[i].id))
      {
        catalog := Inc(catalog, lines[k].pizza, sign * lines[k].quantity);
        assert lines[..k + 1][..k] == lines[..k];
        k := k + 1;
      }
      assert lines[..|lines|] == lines;
    }

    /** The state once create-order has saved order `id` for `user`:
        numbered from its position, at `address`, without notes, its total
        the sum of its lines. With payments off it is confirmed and paid at
        once, its components taken from `before` and the owner notified in
        `log`; otherwise it waits for payment, stock and notifications are
        untouched, and `intent` asks the gateway for the total in paise. */
    ghost predicate Created(id: OrderId, intent: Option<PaymentIntent>, user: UserId, address: Option<Address>,
                            gatewayOrderId: string, now: int, before: seq<Item>, log: seq<Event>)
      reads this
    {
      && id < |orders|
      && orders[id].user == user && orders[id].orderNumber == OrderNumber(id)
      && orders[id].deliveryAddress == address && orders[id].notes.None?
      && orders[id].totalAmount == LinesTotal(orders[id].items)
      && (paymentsDisabled ==>
            && orders[id].status == Confirmed && orders[id].paymentStatus == Paid
            && orders[id].paymentId == Some("pay_mock_" + Text.IntToString(now))
            && orders[id].estimatedDeliveryTime == Some(now + ConfirmDelay)
            && catalog == ConsumeComponents(before, orders[id].items)
            && events == log + [Event(user, id, Confirmed, "Order confirmed (payment disabled mode)")]
            && intent.None?)
      && (!paymentsDisabled ==>
            && orders[id].status == Pending && orders[id].paymentStatus == PaymentPending
            && orders[id].paymentId.None? && orders[id].estimatedDeliveryTime.None?
            && catalog == before && events == log
            && intent == Some(PaymentIntent(
                                if testMode then "order_test_" + Text.IntToString(now) else gatewayOrderId,
                                orders[id].totalAmount * 100, "INR", orders[id].orderNumber)))
    }

    /** POST create-order. */
    method CreateOrder(user: UserId, items: seq<RequestedItem>, deliveryAddress: Option<Address>,
                       account: Option<Account>, gatewayOrderId: string, now: int)
      returns (r: Result<OrderId>, intent: Option<PaymentIntent>)
      requires Valid()
      modifies this`orders, this`catalog, this`events
      ensures Valid()
      ensures items == [] ==> r == Err(BadRequest)
      ensures items != [] ==>
                (r.Err? <==> exists i :: 0 <= i < |items| && Representative(items[i].customizations).None?)
      ensures items != [] && r.Err? ==> r.failure == ServerError
      ensures r.Err? ==> catalog == old(catalog) && orders == old(orders) && events == old(events) && intent.None?
      ensures r.Ok? ==> r.value == old(|orders|) && |orders| == old(|orders|) + 1 && orders[..r.value] == old(orders)
      ensures r.Ok? ==> LinesFor(orders[r.value].items, items, old(catalog))
      ensures r.Ok? ==> Created(r.value, intent, user, FinalAddress(deliveryAddress, account), gatewayOrderId, now,
                                old(catalog), old(events))
    {
      if items == [] {
        return Err(BadRequest), None;
      }
      var drafts, totalAmount := PriceAndCheck(catalog, items);
      if drafts.None? {
        // the schema's required `pizza` refuses the save
        return Err(ServerError), None;
      }
      var finalAddress := FinalAddress(deliveryAddress, account);
      var id;
      id, intent := Submit(user, drafts.value, totalAmount, finalAddress, gatewayOrderId, now);
      return Ok(id), intent;
    }

    /** The save of a priced order and the branch on the payment mode:
        confirmed at once when payments are off, otherwise left pending
        with a gateway order to pay. */
    method Submit(user: UserId, drafts: seq<Draft>, totalAmount: int, address: Option<Address>,
                  gatewayOrderId: string, now: int)
      returns (id: OrderId, intent: Option<PaymentIntent>)
      requires Valid()
      requires forall i :: 0 <= i < |drafts| ==> drafts[i].pizza.Some? && drafts[i].quantity >= 1
      requires totalAmount == DraftTotal(drafts)
      modifies this`orders, this`catalog, this`events
      ensures Valid()
      ensures id == old(|orders|) && |orders| == id + 1 && orders[..id] == old(orders)
      ensures orders[id].items == Stored(drafts) && orders[id].totalAmount == totalAmount
      ensures Created(id, intent, user, address, gatewayOrderId, now, old(catalog), old(events))
    {
      id := Place(user, drafts, totalAmount, address);
      if paymentsDisabled {
        AutoConfirm(id, now);
        return id, None;
      }
      var gatewayId := if testMode then "order_test_" + Text.IntToString(now) else gatewayOrderId;
      return id, Some(PaymentIntent(gatewayId, totalAmount * 100, "INR", orders[id].orderNumber));
    }

    /** The first save of a new order: built pending with the schema's
        defaults, numbered by the hook from the current count, and added. */
    method Place(user: UserId, drafts: seq<Draft>, totalAmount: int, address: Option<Address>)
      returns (id: OrderId)
      requires Valid()
      requires forall i :: 0 <= i < |drafts| ==> drafts[i].pizza.Some? && drafts[i].quantity >= 1
      requires totalAmount == DraftTotal(drafts)
      modifies this`orders
      ensures Valid()
      ensures id == old(|orders|)
      ensures orders == old(orders) + [NewOrder(user, Stored(drafts), totalAmount, address).(orderNumber := OrderNumber(id))]
      ensures |orders| == id + 1 && orders[..id] == old(orders)
      ensures && orders[id].user == user && orders[id].orderNumber == OrderNumber(id)
              && orders[id].items == Stored(drafts) && orders[id].totalAmount == totalAmount
              && orders[id].deliveryAddress == address && orders[id].notes.None?
              && orders[id].status == Pending && orders[id].paymentStatus == PaymentPending
              && orders[id].paymentId.None? && orders[id].estimatedDeliveryTime.None?
    {
      id := |orders|;
      var order := NewOrder(user, Stored(drafts), totalAmount, address);
      order := order.(orderNumber := AssignOrderNumber(order.orderNumber, id));
      assert order.orderNumber == OrderNumber(id);
      assert Placed(order, id);
      AppendKeepsPlaced(orders, order);
      orders := orders + [order];
    }

    /** The payments-disabled branch: the order is marked paid and confirmed
        with a mock payment id, every component occurrence is taken from
        stock, and the owner is notified. */
    method AutoConfirm(id: OrderId, now: int)
      requires Valid() && id < |orders|
      modifies this`orders, this`catalog, this`events
      ensures Valid()
      ensures orders == old(orders)[id := old(orders)[id].(paymentStatus := Paid,
                                                          paymentId := Some("pay_mock_" + Text.IntToString(now)),
                                                          status := Confirmed,
                                                          estimatedDeliveryTime := Some(now + ConfirmDelay))]
      ensures catalog == ConsumeComponents(old(catalog), old(orders)[id].items)
      ensures events == old(events) + [Event(old(orders)[id].user, id, Confirmed, "Order confirmed (payment disabled mode)")]
      ensures |orders| == old(|orders|) && orders[..id] == old(orders)[..id]
      ensures && orders[id].user == old(orders)[id].user && orders[id].orderNumber == old(orders)[id].orderNumber
              && orders[id].items == old(orders)[id].items && orders[id].totalAmount == old(orders)[id].totalAmount
              && orders[id].deliveryAddress == old(orders)[id].deliveryAddress && orders[id].notes == old(orders)[id].notes
              && orders[id].status == Confirmed && orders[id].paymentStatus == Paid
              && orders[id].paymentId == Some("pay_mock_" + Text.IntToString(now))
              && orders[id].estimatedDeliveryTime == Some(now + ConfirmDelay)
    {
      var order := orders[id].(paymentStatus := Paid, paymentId := Some("pay_mock_" + Text.IntToString(now)),
                               status := Confirmed, estimatedDeliveryTime := Some(now + ConfirmDelay));
      UpdateKeepsPlaced(orders, id, order);
      orders := orders[id := order];
      ConsumeLines(order.items);
      events := events + [Event(order.user, id, Confirmed, "Order confirmed (payment disabled mode)")];
    }

    /** POST verify-payment. `expectedSignature` is the gateway's HMAC of
        the order and payment ids, computed outside the model. There is no
        guard on the order's current status. */
    method VerifyPayment(user: UserId, orderId: Option<OrderId>, paymentId: Option<string>,
                         signature: Option<string>, expectedSignature: string, now: int)
      returns (r: Result<OrderId>)
      requires Valid()
      modifies this`orders, this`catalog, this`events
      ensures Valid()
      ensures !SignatureAccepted(testMode, orderId, paymentId, signature, expectedSignature) ==> r == Err(BadRequest)
      ensures (&& SignatureAccepted(testMode, orderId, paymentId, signature, expectedSignature)
               && (orderId.None? || orderId.value >= old(|orders|))) ==> r == Err(NotFound)
      ensures (&& SignatureAccepted(testMode, orderId, paymentId, signature, expectedSignature)
               && orderId.Some? && orderId.value < old(|orders|) && old(orders)[orderId.value].user != user)
              ==> r == Err(Forbidden)
      ensures r.Ok? <==>
                && SignatureAccepted(testMode, orderId, paymentId, signature, expectedSignature)
                && orderId.Some? && orderId.value < old(|orders|) && old(orders)[orderId.value].user == user
      ensures r.Err? ==> catalog == old(catalog) && orders == old(orders) && events == old(events)
      ensures r.Ok? ==>
                && r.value == orderId.value
                && orders == old(orders)[r.value := old(orders)[r.value].(
                                           paymentStatus := Paid,
                                           paymentId := Some(if Truthy(paymentId) then paymentId.value else "pay_test_" + Text.IntToString(now)),
                                           status := Confirmed,
                                           estimatedDeliveryTime := Some(now + ConfirmDelay))]
                && catalog == ConsumeRepresentatives(old(catalog), old(orders)[r.value].items)
                && events == old(events) + [Event(user, r.value, Confirmed, "Order confirmed and payment successful!")]
    {
      if !testMode {
        if orderId.None? || !Truthy(paymentId) || !Truthy(signature) {
          return Err(BadRequest);
        }
        if expectedSignature != signature.value {
          return Err(BadRequest);
        }
      }
      if orderId.None? || orderId.value >= |orders| {
        return Err(NotFound);
      }
      var id := orderId.value;
      var order := orders[id];
      if order.user != user {
        return Err(Forbidden);
      }
      MarkPaid(id, if Truthy(paymentId) then paymentId.value else "pay_test_" + Text.IntToString(now), now);
      return Ok(id);
    }

    /** The success branch of verify-payment: the order is paid and
        confirmed, its representative ingredients leave stock and its owner
        is notified. */
    method MarkPaid(id: OrderId, payment: string, now: int)
      requires Valid() && id < |orders|
      modifies this`orders, this`catalog, this`events
      ensures Valid()
      ensures orders == old(orders)[id := old(orders)[id].(paymentStatus := Paid, paymentId := Some(payment),
                                                          status := Confirmed,
                                                          estimatedDeliveryTime := Some(now + ConfirmDelay))]
      ensures catalog == ConsumeRepresentatives(old(catalog), old(orders)[id].items)
      ensures events == old(events) + [Event(old(orders)[id].user, id, Confirmed, "Order confirmed and payment successful!")]
    {
      var order := orders[id].(paymentStatus := Paid, paymentId := Some(payment),
                               status := Confirmed, estimatedDeliveryTime := Some(now + ConfirmDelay));
      UpdateKeepsPlaced(orders, id, order);
      orders := orders[id := order];
      ShiftRepresentatives(order.items, false);
      events := events + [Event(order.user, id, Confirmed, "Order confirmed and payment successful!")];
    }

    /** POST cancel/:id. */
    method CancelOrder(user: UserId, orderId: OrderId) returns (r: Result<OrderId>)
      requires Valid()
      modifies this
      ensures Valid()
      ensures nextItemId == old(nextItemId) && events == old(events)
      ensures orderId >= old(|orders|) ==> r == Err(NotFound)
      ensures orderId < old(|orders|) && old(orders)[orderId].user != user ==> r == Err(Forbidden)
      ensures (&& orderId < old(|orders|) && old(orders)[orderId].user == user
               && old(orders)[orderId].status in {Delivered, Cancelled}) ==> r == Err(BadRequest)
      ensures r.Ok? <==>
                orderId < old(|orders|) && old(orders)[orderId].user == user
                && old(orders)[orderId].status !in {Delivered, Cancelled}
      ensures r.Err? ==> catalog == old(catalog) && orders == old(orders)
      ensures r.Ok? ==>
                && r.value == orderId
                && orders == old(orders)[orderId := old(orders)[orderId].(status := Cancelled)]
                && catalog == RestoreRepresentatives(old(catalog), old(orders)[orderId].items)
    {
      if orderId >= |orders| {
        return Err(NotFound);
      }
      var order := orders[orderId];
      if order.user != user {
        return Err(Forbidden);
      }
      if order.status == Delivered || order.status == Cancelled {
        return Err(BadRequest);
      }
      order := order.(status := Cancelled);
      UpdateKeepsPlaced(orders, orderId, order);
      orders := orders[orderId := order];
      ShiftRepresentatives(order.items, true);
      return Ok(orderId);
    }

    /** PUT admin orders/:id/status. The catalog and the payment state are
        never touched, whatever the new status. */
    method UpdateStatus(orderId: OrderId, status: string, now: int) returns (r: Result<OrderId>)
      requires Valid()
      modifies this`orders, this`events
      ensures Valid()
      ensures catalog == old(catalog)
      ensures ParseStatus(status).None? ==> r == Err(BadRequest)
      ensures ParseStatus(status).Some? && orderId >= old(|orders|) ==> r == Err(NotFound)
      ensures r.Ok? <==> ParseStatus(status).Some? && orderId < old(|orders|)
      ensures r.Err? ==> orders == old(orders) && events == old(events)
      ensures r.Ok? ==>
                && r.value == orderId
                && orders == old(orders)[orderId := WithStatus(old(orders)[orderId], ParseStatus(status).value, now)]
                && events == old(events) + [Event(old(orders)[orderId].user, orderId, ParseStatus(status).value, StatusMessage(status))]
    {
      var s := ParseStatus(status);
      if s.None? {
        return Err(BadRequest);
      }
      if orderId >= |orders| {
        return Err(NotFound);
      }
      SetStatus(orderId, s.value, StatusMessage(status), now);
      return Ok(orderId);
    }

    /** The save and notification of a status update. */
    method SetStatus(orderId: OrderId, s: Status, message: string, now: int)
      requires Valid() && orderId < |orders|
      modifies this`orders, this`events
      ensures Valid()
      ensures orders == old(orders)[orderId := WithStatus(old(orders)[orderId], s, now)]
      ensures events == old(events) + [Event(old(orders)[orderId].user, orderId, s, message)]
    {
      var order := WithStatus(orders[orderId], s, now);
      UpdateKeepsPlaced(orders, orderId, order);
      orders := orders[orderId := order];
      events := events + [Event(order.user, orderId, s, message)];
    }

    /** POST inventory. */
    method CreateItem(f: ItemFields) returns (r: Result<ItemId>)
      requires Valid()
      modifies this`catalog, this`nextItemId
      ensures Valid()
      ensures r.Ok? <==> NewItem(old(nextItemId), CreateFields(f)).Ok?
      ensures r.Err? ==> r.failure == ServerError && catalog == old(catalog) && nextItemId == old(nextItemId)
      ensures r.Ok? ==>
                && r.value == old(nextItemId) && nextItemId == old(nextItemId) + 1
                && catalog == old(catalog) + [NewItem(old(nextItemId), CreateFields(f)).value]
    {
      var item := NewItem(nextItemId, CreateFields(f));
      if item.Err? {
        return Err(item.failure);
      }
      catalog := catalog + [item.value];
      r := Ok(nextItemId);
      nextItemId := nextItemId + 1;
    }

    /** PUT inventory/:id. */
    method EditItem(id: ItemId, p: ItemFields) returns (r: Result<ItemId>)
      requires Valid()
      modifies this`catalog
      ensures Valid()
      ensures IndexOf(old(catalog), id).None? ==> r == Err(NotFound)
      ensures IndexOf(old(catalog), id).Some? ==>
                (r.Ok? <==> Edited(old(catalog)[IndexOf(old(catalog), id).value], p).Ok?)
      ensures IndexOf(old(catalog), id).Some? && r.Err? ==> r.failure == ServerError
      ensures r.Err? ==> catalog == old(catalog)
      ensures r.Ok? ==>
                var k := IndexOf(old(catalog), id).value;
                r.value == id && catalog == old(catalog)[k := Edited(old(catalog)[k], p).value]
    {
      var k := IndexOf(catalog, id);
      if k.None? {
        return Err(NotFound);
      }
      var item := Edited(catalog[k.value], p);
      if item.Err? {
        return Err(item.failure);
      }
      catalog := catalog[k.value := item.value];
      return Ok(id);
    }

    /** DELETE inventory/:id. */
    method DeleteItem(id: ItemId) returns (r: Result<ItemId>)
      requires Valid()
      modifies this`catalog
      ensures Valid()
      ensures r.Err? <==> IndexOf(old(catalog), id).None?
      ensures r.Err? ==> r.failure == NotFound && catalog == old(catalog)
      ensures r.Ok? ==>
                var k := IndexOf(old(catalog), id).value;
                r.value == id && catalog == old(catalog)[..k] + old(catalog)[k + 1..]
      ensures forall x :: x in catalog <==> x in old(catalog) && x.id != id
    {
      var k := IndexOf(catalog, id);
      if k.None? {
        return Err(NotFound);
      }
      RemoveAtKeepsOthers(catalog, k.value);
      RemoveAtKeepsBelow(catalog, k.value, nextItemId);
      catalog := catalog[..k.value] + catalog[k.value + 1..];
      return Ok(id);
    }

    /** PUT inventory/:id/stock. */
    method SetStock(id: ItemId, stock: int) returns (r: Result<ItemId>)
      requires Valid()
      modifies this`catalog
      ensures Valid()
      ensures stock < 0 ==> r == Err(BadRequest)
      ensures stock >= 0 && IndexOf(old(catalog), id).None? ==> r == Err(NotFound)
      ensures r.Ok? <==> stock >= 0 && IndexOf(old(catalog), id).Some?
      ensures r.Err? ==> catalog == old(catalog)
      ensures r.Ok? ==>
                var k := IndexOf(old(catalog), id).value;
                r.value == id && catalog == old(catalog)[k := old(catalog)[k].(stock := stock)]
    {
      if stock < 0 {
        return Err(BadRequest);
      }
      var k := IndexOf(catalog, id);
      if k.None? {
        return Err(NotFound);
      }
      catalog := catalog[k.value := catalog[k.value].(stock := stock)];
      return Ok(id);
    }
  }
}
